/** A run in which a deleted key becomes readable again: SetupOtherInputs closes its inputs of
    `level` under boundary files, but not its inputs of `level + 1` (db/version_set.cc:1403-1412). */
module Resurrection {
  import opened Keys
  import opened Versions
  import opened Inputs
  import opened Selection
  import opened Picking
  import opened Flushing
  import opened Merging
  import opened CompactionRun
  import opened Building
  import opened Lsm
  import opened LsmFiles
  import opened LsmEdits
  import opened LsmRuns
  import opened ResurrectionSizes

  function FileOf(number: nat, run: Run): File
    requires run != []
  {
    FlushedFile(number, SizeOf(run), run)
  }

  function Levels(one: seq<File>, two: seq<File>): seq<seq<File>> {
    [[], one, two, [], [], [], []]
  }

  // The files: two flushes, the two outputs of the first compaction, a flush, the last output.
  function F2(): File { FileOf(2, [Del3(), Put3()]) }
  function F3(m: Limit): File { FileOf(3, [Put1(m), Put2(), Put4()]) }
  function F4(m: Limit): File { FileOf(4, [Put1(m), Put2(), Del3()]) }
  function F5(): File { FileOf(5, [Put3(), Put4()]) }
  function F6(): File { FileOf(6, [Again1()]) }
  function F7(): File { FileOf(7, [Again1(), Put2()]) }

  // ------------------------------------------------------------------ writing, step by step

  ghost predicate Goes(m: Limit, d: Db, a: Action, d': Db) {
    Enabled(m, d, a) && Apply(m, d, a) == d' && Honest(m, d, a)
  }

  /** Files are as large as the table builder makes them, and a compaction cuts its outputs exactly where what is
      written so far reaches the size limit (db/db_impl.cc:988-990). */
  ghost predicate Honest(m: Limit, d: Db, a: Action) {
    && (a.Flush? && d.imm.Some? ==> a.size == SizeOf(d.imm.value))
    && (a.Install? ==> CutBySize(m, a.outputs))
  }

  ghost predicate CutBySize(m: Limit, files: seq<File>) {
    forall i :: 0 <= i < |files| ==>
      && files[i].size == SizeOf(files[i].run) && files[i].run != []
      && WrittenSize(files[i].run[..|files[i].run| - 1]) < m && (i + 1 < |files| ==> WrittenSize(files[i].run) >= m)
  }

  function D0(): Db { Initial() }
  function D1(): Db { D0().(mem := [Put3()], applied := 1, log := [Put3()]) }
  function D2(): Db { D1().(last := 1) }
  function D3(): Db { D2().(snapshots := [1]) }
  function D4(): Db { D3().(mem := [Del3(), Put3()], applied := 2, log := [Put3(), Del3()]) }
  function D5(): Db { D4().(last := 2) }
  function D6(): Db { D5().(imm := Some([Del3(), Put3()]), mem := []) }
  function D7(): Db { D6().(imm := None, v := Levels([], [F2()]), next := 3) }
  function D8(m: Limit): Db { D7().(mem := [Put1(m)], applied := 3, log := [Put3(), Del3(), Put1(m)]) }
  function D9(m: Limit): Db { D8(m).(mem := [Put1(m), Put2()], applied := 4, log := [Put3(), Del3(), Put1(m), Put2()]) }
  function D9b(m: Limit): Db {
    D9(m).(mem := [Put1(m), Put2(), Put4()], applied := 5, log := [Put3(), Del3(), Put1(m), Put2(), Put4()])
  }
  function D10(m: Limit): Db { D9b(m).(last := 5) }
  function D11(m: Limit): Db { D10(m).(imm := Some([Put1(m), Put2(), Put4()]), mem := []) }
  function D12(m: Limit): Db { D11(m).(imm := None, v := Levels([F3(m)], [F2()]), next := 4) }

  lemma FirstWrites(m: Limit)
    ensures Goes(m, D0(), Insert(3.0, Value, "old"), D1())
    ensures Goes(m, D1(), Publish, D2())
    ensures Goes(m, D2(), TakeSnapshot, D3())
    ensures Goes(m, D3(), Insert(3.0, Deletion, ""), D4())
    ensures Goes(m, D4(), Publish, D5())
    ensures Goes(m, D5(), Switch, D6())
  {
    hide SizeOf, WrittenSize;
  }

  // ------------------------------------------------------------------ flushes

  lemma WithFileIsUnique(v: seq<seq<File>>, a: seq<seq<File>>, b: seq<seq<File>>, level: nat, f: File)
    requires WithFile(v, a, level, f) && WithFile(v, b, level, f)
    ensures a == b
  {
    forall l | 0 <= l < NUM_LEVELS ensures a[l] == b[l] {
      OrderedFilesAreUnique(a[l], b[l]);
    }
  }

  lemma FlushGoes(m: Limit, d: Db, size: nat, level: nat, v': seq<seq<File>>)
    requires |d.v| == NUM_LEVELS && d.imm.Some? && d.imm.value != []
    requires FlushLevel(m, d.v, d.imm.value) == level
    requires WithFile(d.v, v', level, FlushedFile(d.next, size, d.imm.value))
    requires LevelsInOrder(d.v) && NumbersBelow(d.v, d.next) && size == SizeOf(d.imm.value)
    ensures Goes(m, d, Flush(size), d.(imm := None, next := d.next + 1, v := v'))
  {
    hide SizeOf, WrittenSize;
    var f := FlushedFile(d.next, size, d.imm.value);
    FlushEffect(d.v, level, f);
    WithFileIsUnique(d.v, ApplyEdit(d.v, Edit({}, [(level, f)])), v', level, f);
  }

  lemma SizeOfAlone(f: File)
    ensures TotalFileSize([f]) == f.size
  {
    assert [f][..0] == [];
  }

  lemma NoFilesNoSize(r: Range)
    ensures TotalFileSize(OverlappingInputs(2, [], r)) == 0
    ensures TotalFileSize(OverlappingInputs(3, [], r)) == 0
  {
  }

  lemma FirstLevel(m: Limit)
    ensures PickLevel(m, Levels([], []), Range(Some(3.0), Some(3.0))) == 2
  {
    var r, v := Range(Some(3.0), Some(3.0)), Levels([], []);
    NoFilesNoSize(r);
    assert !AnyOverlap([], r);
    hide AnyOverlap, OverlappingInputs;
    assert PickLevelFrom(m, v, r, 2) == 2;
    assert PickLevelFrom(m, v, r, 1) == 2;
    assert PickLevelFrom(m, v, r, 0) == 2;
  }

  lemma FirstFlushFits()
    ensures var v, v' := Levels([], []), Levels([], [F2()]);
            WithFile(v, v', 2, F2()) && LevelsInOrder(v) && NumbersBelow(v, 2)
  {
    hide SizeOf, WrittenSize;
  }

  lemma FirstFlush(m: Limit)
    ensures Goes(m, D6(), Flush(F2().size), D7())
  {
    hide PickLevel, WithFile, LevelsInOrder, NumbersBelow, Goes, SizeOf, WrittenSize;
    var v, v' := Levels([], []), Levels([], [F2()]);
    assert D6().v == v && D6().next == 2 && D6().imm == Some([Del3(), Put3()]) && D7().v == v';
    FirstLevel(m);
    FirstFlushFits();
    FlushGoes(m, D6(), F2().size, 2, v');
  }

  lemma SecondWrites(m: Limit)
    ensures Goes(m, D7(), Insert(1.0, Value, Filler(m - 100)), D8(m))
    ensures Goes(m, D8(m), Insert(2.0, Value, Filler(4067)), D9(m))
    ensures Goes(m, D9(m), Insert(4.0, Value, "b"), D9b(m))
    ensures Goes(m, D9b(m), Publish, D10(m))
    ensures Goes(m, D10(m), Switch, D11(m))
  {
    hide Filler, SizeOf, F2, WrittenSize;
  }

  lemma SecondLevel(m: Limit)
    ensures PickLevel(m, Levels([], [F2()]), Range(Some(1.0), Some(4.0))) == 1
  {
    hide SizeOf, WrittenSize;
    var r, v := Range(Some(1.0), Some(4.0)), Levels([], [F2()]);
    assert F2() in v[2] && Overlaps(F2(), r);
    assert AnyOverlap(v[2], r) && !AnyOverlap(v[1], r) && !AnyOverlap(v[0], r);
    assert OverlappingInputs(2, v[2], r) == [F2()] by { assert v[2][1..] == []; }
    FirstTableSize();
    SizeOfAlone(F2());
    hide AnyOverlap, OverlappingInputs, F2;
    assert PickLevelFrom(m, v, r, 1) == 1;
    assert PickLevelFrom(m, v, r, 0) == 1;
  }

  lemma SecondFlushFits(m: Limit)
    ensures var v, v' := Levels([], [F2()]), Levels([F3(m)], [F2()]);
            WithFile(v, v', 1, F3(m)) && LevelsInOrder(v) && NumbersBelow(v, 3)
  {
    hide SizeOf, Filler, WrittenSize;
  }

  lemma SecondFlush(m: Limit)
    ensures Goes(m, D11(m), Flush(F3(m).size), D12(m))
  {
    hide PickLevel, WithFile, LevelsInOrder, NumbersBelow, Goes, F2, SizeOf, Filler, WrittenSize;
    var v, v' := Levels([], [F2()]), Levels([F3(m)], [F2()]);
    assert D11(m).v == v && D11(m).next == 3 && D11(m).imm == Some([Put1(m), Put2(), Put4()]) && D12(m).v == v';
    SecondLevel(m);
    SecondFlushFits(m);
    FlushGoes(m, D11(m), F3(m).size, 1, v');
  }

  // ------------------------------------------------------------------ compactions

  lemma PickAlone(m: Limit, level: nat, f: File, files1: seq<File>)
    requires level > 0 && !Less(f.largest, f.smallest)
    ensures Pick(m, level, [f], files1, f) == Chosen([f], Overlapping(files1, UserRange([f])))
  {
    assert SmallestBoundary([f][..0], f.largest) == None;
    assert SmallestBoundary([f], f.largest) == None;
    assert WithBoundary([f], [f]) == [f];
    assert [f][1..] == [];
    forall r ensures |WithBoundary([f], Overlapping([f], r))| <= 1 {}
  }

  lemma ReplacedIsUnique(v: seq<seq<File>>, a: seq<seq<File>>, b: seq<seq<File>>, level: nat, in0: seq<File>,
                         in1: seq<File>, out: seq<File>)
    requires Replaced(v, a, level, in0, in1, out) && Replaced(v, b, level, in0, in1, out)
    ensures a == b
  {
    forall l | 0 <= l < NUM_LEVELS ensures a[l] == b[l] {
      forall f ensures f in a[l] <==> f in b[l] {}
      OrderedFilesAreUnique(a[l], b[l]);
    }
  }

  lemma BeginGoes(m: Limit, d: Db, level: nat, seed: File, p: Chosen)
    requires |d.v| == NUM_LEVELS && d.running.None? && d.imm.None? && level + 1 < NUM_LEVELS
    requires Bounded(d.v[level]) && seed in d.v[level]
    requires Pick(m, level, d.v[level], d.v[level + 1], seed) == p
    ensures Goes(m, d, Begin(level, seed),
                 d.(running := Some(Compaction(level, p.inputs0, p.inputs1, SmallestSnapshot(d), d.v, {}))))
  {
    hide Pick, Bounded, SizeOf, WrittenSize;
  }

  lemma ReserveGoes(m: Limit, d: Db)
    requires |d.v| == NUM_LEVELS && d.running.Some?
    ensures var c := d.running.value;
            Goes(m, d, Reserve, d.(next := d.next + 1, running := Some(c.(reserved := c.reserved + {d.next}))))
  {
  }

  /** What an install needs, with the version it makes given explicitly. */
  ghost predicate Fits(c: Compaction, v: seq<seq<File>>, outputs: seq<File>, v': seq<seq<File>>) {
    && LevelsInOrder(v) && NumbersUnique(v) && c.level + 1 < NUM_LEVELS
    && (forall f :: f in c.inputs0 ==> f in v[c.level])
    && (forall f :: f in c.inputs1 ==> f in v[c.level + 1])
    && (forall l, g, f :: 0 <= l < NUM_LEVELS && g in v[l] && f in outputs ==> g.number != f.number)
    && DistinctNumbers(outputs)
    && Replaced(v, v', c.level, c.inputs0, c.inputs1, outputs)
  }

  lemma EditFits(c: Compaction, v: seq<seq<File>>, outputs: seq<File>, v': seq<seq<File>>)
    requires Fits(c, v, outputs, v')
    ensures ApplyEdit(v, CompactionEdit(c, outputs)) == v'
  {
    CompactionEffect(v, c, outputs);
    ReplacedIsUnique(v, ApplyEdit(v, CompactionEdit(c, outputs)), v', c.level, c.inputs0, c.inputs1, outputs);
  }

  lemma InstallGoes(m: Limit, d: Db, outputs: seq<File>, v': seq<seq<File>>)
    requires |d.v| == NUM_LEVELS && d.running.Some?
    requires var c := d.running.value;
      && Fits(c, d.v, outputs, v')
      && !IsTrivialMove(m, c) && CutBySize(m, outputs)
      && AllFilesOk(outputs) && Disjoint(outputs) && DistinctNumbers(outputs)
      && (forall f :: f in outputs ==> f.number in c.reserved)
      && Contents(outputs) == Kept(c.base, c.level, c.smallest, MergedInputs(c), |MergedInputs(c)|)
    ensures Goes(m, d, Install(outputs), d.(running := None, floor := d.running.value.smallest, v := v'))
  {
    hide Fits, AllFilesOk, Disjoint, Kept, MergedInputs, ApplyEdit, CompactionEdit, IsTrivialMove, Contents,
         DistinctNumbers, SizeOf, WrittenSize;
    EditFits(d.running.value, d.v, outputs, v');
  }

  // ------------------------------------------------------------------ the first compaction, with a snapshot held

  function C1(m: Limit, reserved: set<nat>): Compaction {
    Compaction(1, [F3(m)], [F2()], 1, Levels([F3(m)], [F2()]), reserved)
  }

  function D13(m: Limit): Db { D12(m).(running := Some(C1(m, {}))) }
  function D14(m: Limit): Db { D13(m).(next := 5, running := Some(C1(m, {4}))) }
  function D15(m: Limit): Db { D14(m).(next := 6, running := Some(C1(m, {4, 5}))) }
  function D16(m: Limit): Db { D15(m).(running := None, floor := 1, v := Levels([], [F4(m), F5()])) }

  /** What a seed file of level 1 picks. */
  ghost predicate Picks(m: Limit, one: seq<File>, two: seq<File>, seed: File, p: Chosen) {
    Bounded(one) && seed in one && Pick(m, 1, one, two, seed) == p
  }

  lemma FirstPick(m: Limit)
    ensures Picks(m, [F3(m)], [F2()], F3(m), Chosen([F3(m)], [F2()]))
  {
    hide SizeOf, WrittenSize;
    PickAlone(m, 1, F3(m), [F2()]);
    assert [F2()][1..] == [];
    assert Overlaps(F2(), UserRange([F3(m)]));
    assert Overlapping([F2()], UserRange([F3(m)])) == [F2()];
  }

  lemma FirstBegin(m: Limit)
    ensures Goes(m, D12(m), Begin(1, F3(m)), D13(m))
  {
    BeforeFirstBegin(m);
    FirstPick(m);
    hide Pick, F2, F3, Goes, Bounded, SmallestSnapshot, Levels;
    BeginGoes(m, D12(m), 1, F3(m), Chosen([F3(m)], [F2()]));
  }

  lemma BeforeFirstBegin(m: Limit)
    ensures var d := D12(m);
            && d.v == Levels([F3(m)], [F2()]) && d.v[1] == [F3(m)] && d.v[2] == [F2()] && |d.v| == NUM_LEVELS
            && d.running.None? && d.imm.None? && SmallestSnapshot(d) == 1 && Bounded([F3(m)])
  {
    hide SizeOf, WrittenSize;
  }

  lemma FirstReserves(m: Limit)
    ensures Goes(m, D13(m), Reserve, D14(m))
    ensures Goes(m, D14(m), Reserve, D15(m))
  {
    hide F2, F3, Goes, SizeOf, WrittenSize;
    assert {} + {4} == {4} && {4} + {5} == {4, 5};
    assert |D13(m).v| == NUM_LEVELS && |D14(m).v| == NUM_LEVELS;
    ReserveGoes(m, D13(m));
    ReserveGoes(m, D14(m));
  }

  function Merged1(m: Limit): Run { [Put1(m), Put2(), Del3(), Put3(), Put4()] }

  lemma FirstMerge(m: Limit)
    ensures MergedInputs(C1(m, {4, 5})) == Merged1(m)
  {
    hide *;
    FirstInputs(m);
    MergeOfTwo([Put1(m), Put2(), Put4()], [Del3(), Put3()]);
    FirstMerge2(m);
  }

  lemma ContentsOfOne(f: File)
    ensures Contents([f]) == f.run
  {
    assert [f][..0] == [];
  }

  lemma FirstInputs(m: Limit)
    ensures MergedInputs(C1(m, {4, 5})) == Merge([[Put1(m), Put2(), Put4()], [Del3(), Put3()]])
  {
    hide Contents, Merge, SizeOf, WrittenSize;
    ContentsOfOne(F3(m));
    ContentsOfOne(F2());
    assert InputRuns(C1(m, {4, 5})) == [F3(m).run, F2().run];
  }

  lemma MergeOfTwo(a: Run, b: Run)
    ensures Merge([a, b]) == Merge2(a, b)
  {
    var bs: seq<Run> := [b];
    assert [a, b][1..] == bs && bs[1..] == [];
    assert Merge(bs) == b;
  }

  lemma FirstMerge2(m: Limit)
    ensures Merge2([Put1(m), Put2(), Put4()], [Del3(), Put3()]) == Merged1(m)
  {
    var a, b := [Put1(m), Put2(), Put4()], [Del3(), Put3()];
    assert Merge2([Put4()], []) == [Put4()];
    assert Merge2([Put4()], [Put3()]) == [Put3(), Put4()];
    assert b[1..] == [Put3()] && a[1..] == [Put2(), Put4()] && a[1..][1..] == [Put4()];
    assert Merge2([Put4()], b) == [Del3(), Put3(), Put4()];
    assert Merge2([Put2(), Put4()], b) == [Put2(), Del3(), Put3(), Put4()];
  }

  lemma FirstKept(m: Limit)
    ensures var v := Levels([F3(m)], [F2()]); Kept(v, 1, 1, Merged1(m), 5) == Merged1(m)
  {
    hide SizeOf, WrittenSize;
    var v, all := Levels([F3(m)], [F2()]), Merged1(m);
    assert !Dropped(v, 1, 1, all, 0) && !Dropped(v, 1, 1, all, 1) && !Dropped(v, 1, 1, all, 2);
    assert !Dropped(v, 1, 1, all, 3) && !Dropped(v, 1, 1, all, 4);
    hide Dropped;
    assert Kept(v, 1, 1, all, 1) == [Put1(m)];
    assert Kept(v, 1, 1, all, 2) == [Put1(m), Put2()];
    assert Kept(v, 1, 1, all, 3) == [Put1(m), Put2(), Del3()];
    assert Kept(v, 1, 1, all, 4) == [Put1(m), Put2(), Del3(), Put3()];
  }

  /** Where a file of the two levels stands among them. */
  lemma StandsAt(one: seq<File>, two: seq<File>, l: nat, f: File) returns (i: nat)
    requires l < NUM_LEVELS && f in Levels(one, two)[l]
    ensures i < |one + two| && (one + two)[i] == f && l == if i < |one| then 1 else 2
  {
    var files := if l == 1 then one else two;
    assert Levels(one, two)[l] == files;
    var k: nat :| k < |files| && files[k] == f;
    i := if l == 1 then k else |one| + k;
  }

  lemma LevelsUnique(one: seq<File>, two: seq<File>)
    requires DistinctNumbers(one + two)
    ensures NumbersUnique(Levels(one, two))
  {
    hide Levels, SizeOf, WrittenSize;
    var v := Levels(one, two);
    assert |v| == NUM_LEVELS by { LevelsAre(one, two); }
    forall l, k, f: File, g: File | 0 <= l < |v| && 0 <= k < |v| && f in v[l] && g in v[k] && f.number == g.number
      ensures l == k && f == g
    {
      var i := StandsAt(one, two, l, f);
      var j := StandsAt(one, two, k, g);
    }
  }

  lemma LevelsAre(one: seq<File>, two: seq<File>)
    ensures |Levels(one, two)| == NUM_LEVELS
  {
  }

  lemma LevelsFresh(one: seq<File>, two: seq<File>, out: seq<File>)
    requires DistinctNumbers(one + two + out)
    ensures forall l, g, f :: 0 <= l < NUM_LEVELS && g in Levels(one, two)[l] && f in out ==> g.number != f.number
    ensures DistinctNumbers(out) && DistinctNumbers(one + two)
  {
    var v, all := Levels(one, two), one + two + out;
    forall l, g: File, f: File | 0 <= l < NUM_LEVELS && g in v[l] && f in out
      ensures g.number != f.number
    {
      var i :| 0 <= i < |v[l]| && v[l][i] == g;
      var j :| 0 <= j < |out| && out[j] == f;
      assert all[if l == 1 then i else |one| + i] == g;
      assert all[|one| + |two| + j] == f;
    }
    forall i, j | 0 <= i < j < |out| ensures out[i].number != out[j].number {
      assert all[|one| + |two| + i] == out[i] && all[|one| + |two| + j] == out[j];
    }
    forall i, j | 0 <= i < j < |one + two| ensures (one + two)[i].number != (one + two)[j].number {
      assert all[i] == (one + two)[i] && all[j] == (one + two)[j];
    }
  }

  lemma LevelsReplaced(one: seq<File>, two: seq<File>, in1: seq<File>, out: seq<File>, two': seq<File>)
    requires InOrder(two') && forall f :: f in two' <==> (f in two && f !in in1) || f in out
    ensures Replaced(Levels(one, two), Levels([], two'), 1, one, in1, out)
  {
    assert InOrder([]);
  }

  /** Replacing all of level 1 and some files of level 2, told level by level. */
  lemma LevelsFit(c: Compaction, one: seq<File>, two: seq<File>, out: seq<File>, two': seq<File>)
    requires c.level == 1 && c.inputs0 == one
    requires InOrder(one) && InOrder(two) && InOrder(two')
    requires forall f :: f in c.inputs1 ==> f in two
    requires forall f :: f in two' <==> (f in two && f !in c.inputs1) || f in out
    requires DistinctNumbers(one + two + out)
    ensures Fits(c, Levels(one, two), out, Levels([], two'))
  {
    LevelsFresh(one, two, out);
    LevelsUnique(one, two);
    LevelsReplaced(one, two, c.inputs1, out, two');
    assert LevelsInOrder(Levels(one, two));
    hide Replaced, LevelsInOrder, NumbersUnique, DistinctNumbers, InOrder;
  }

  lemma FirstFits(m: Limit)
    ensures Fits(C1(m, {4, 5}), D15(m).v, [F4(m), F5()], D16(m).v)
  {
    hide SizeOf, WrittenSize;
    var all := [F3(m)] + [F2()] + [F4(m), F5()];
    assert all == [F3(m), F2(), F4(m), F5()];
    LevelsFit(C1(m, {4, 5}), [F3(m)], [F2()], [F4(m), F5()], [F4(m), F5()]);
  }

  lemma FirstOutputsOk(m: Limit)
    ensures AllFilesOk([F4(m), F5()]) && Disjoint([F4(m), F5()]) && DistinctNumbers([F4(m), F5()])
  {
    hide SizeOf, WrittenSize;
    assert FileOk(F4(m)) && FileOk(F5());
  }

  lemma FirstContents(m: Limit)
    ensures Contents([F4(m), F5()]) == Merged1(m)
  {
    hide SizeOf, WrittenSize;
    var out := [F4(m), F5()];
    assert out[..1] == [F4(m)];
    assert [F4(m)][..0] == [];
    assert Contents([F4(m)]) == [Put1(m), Put2(), Del3()];
  }

  lemma FirstCut(m: Limit)
    ensures CutBySize(m, [F4(m), F5()])
    ensures !IsTrivialMove(m, C1(m, {4, 5})) && F4(m).number == 4 && F5().number == 5
  {
    hide SizeOf, WrittenSize, Filler;
    CutFallsBehindMarker(m);
    assert F4(m).run[..2] == [Put1(m), Put2()] && F5().run[..1] == [Put3()];
  }

  lemma FirstInstall(m: Limit)
    ensures Goes(m, D15(m), Install([F4(m), F5()]), D16(m))
  {
    hide Fits, AllFilesOk, Disjoint, Kept, MergedInputs, Contents, Merged1, DistinctNumbers, IsTrivialMove, CutBySize,
         F2, F3, F4, F5, Goes, SizeOf, WrittenSize;
    FirstMerge(m);
    FirstKept(m);
    FirstFits(m);
    FirstOutputsOk(m);
    FirstContents(m);
    FirstCut(m);
    assert |Merged1(m)| == 5 by { FirstMergedLength(m); }
    assert |D15(m).v| == NUM_LEVELS && D15(m).running == Some(C1(m, {4, 5}));
    InstallGoes(m, D15(m), [F4(m), F5()], D16(m).v);
  }

  lemma FirstMergedLength(m: Limit)
    ensures |Merged1(m)| == 5
  {
  }

  // ------------------------------------------------------------------ the second compaction, without the snapshot

  function D17(m: Limit): Db { D16(m).(snapshots := []) }
  function D18(m: Limit): Db {
    D17(m).(mem := [Again1()], applied := 6, log := [Put3(), Del3(), Put1(m), Put2(), Put4(), Again1()])
  }
  function D19(m: Limit): Db { D18(m).(last := 6) }
  function D20(m: Limit): Db { D19(m).(imm := Some([Again1()]), mem := []) }
  function D21(m: Limit): Db { D20(m).(imm := None, v := Levels([F6()], [F4(m), F5()]), next := 7) }

  function C2(m: Limit, reserved: set<nat>): Compaction {
    Compaction(1, [F6()], [F4(m)], 6, Levels([F6()], [F4(m), F5()]), reserved)
  }

  function D22(m: Limit): Db { D21(m).(running := Some(C2(m, {}))) }
  function D23(m: Limit): Db { D22(m).(next := 8, running := Some(C2(m, {7}))) }
  function D24(m: Limit): Db { D23(m).(running := None, floor := 6, v := Levels([], [F7(), F5()])) }

  lemma SnapshotReleased(m: Limit)
    ensures Goes(m, D16(m), ReleaseSnapshot(0), D17(m))
  {
    hide F2, F3, F4, F5, SizeOf, WrittenSize, Filler;
    assert D16(m).snapshots == [1];
    assert D16(m).snapshots[..0] + D16(m).snapshots[1..] == [];
  }

  lemma ThirdWrites(m: Limit)
    ensures Goes(m, D17(m), Insert(1.0, Value, "c"), D18(m))
    ensures Goes(m, D18(m), Publish, D19(m))
    ensures Goes(m, D19(m), Switch, D20(m))
  {
    hide F2, F3, F4, F5, SizeOf, WrittenSize, Filler;
    assert D17(m).log + [Again1()] == [Put3(), Del3(), Put1(m), Put2(), Put4(), Again1()];
  }

  lemma ThirdLevel(m: Limit)
    ensures PickLevel(m, Levels([], [F4(m), F5()]), Range(Some(1.0), Some(1.0))) == 1
  {
    hide SizeOf, WrittenSize;
    var r, v, out := Range(Some(1.0), Some(1.0)), Levels([], [F4(m), F5()]), [F4(m), F5()];
    assert F4(m) in v[2] && Overlaps(F4(m), r);
    assert AnyOverlap(v[2], r) && !AnyOverlap(v[1], r) && !AnyOverlap(v[0], r);
    OnlyFirstOverlaps(m, r);
    assert OverlappingInputs(2, v[2], r) == [F4(m)];
    SizeOfAlone(F4(m));
    CutTableSize(m);
    hide AnyOverlap, OverlappingInputs, F4, F5;
    assert PickLevelFrom(m, v, r, 1) == 1;
    assert PickLevelFrom(m, v, r, 0) == 1;
  }

  lemma ThirdFits(m: Limit)
    ensures var v, v' := Levels([], [F4(m), F5()]), Levels([F6()], [F4(m), F5()]);
            WithFile(v, v', 1, F6()) && LevelsInOrder(v) && NumbersBelow(v, 6)
  {
    hide SizeOf, WrittenSize;
  }

  lemma ThirdFlush(m: Limit)
    ensures Goes(m, D20(m), Flush(F6().size), D21(m))
  {
    hide PickLevel, WithFile, LevelsInOrder, NumbersBelow, Goes, F4, F5, SizeOf, WrittenSize;
    var v, v' := Levels([], [F4(m), F5()]), Levels([F6()], [F4(m), F5()]);
    assert D20(m).v == v && D20(m).next == 6 && D20(m).imm == Some([Again1()]) && D21(m).v == v';
    ThirdLevel(m);
    ThirdFits(m);
    FlushGoes(m, D20(m), F6().size, 1, v');
  }

  lemma OnlyFirstOverlaps(m: Limit, r: Range)
    requires r == Range(Some(1.0), Some(1.0))
    ensures Overlapping([F4(m), F5()], r) == [F4(m)]
  {
    hide SizeOf, WrittenSize;
    assert [F4(m), F5()][1..] == [F5()] && [F5()][1..] == [];
    assert Overlapping([F5()], r) == [];
  }

  lemma SecondPick(m: Limit)
    ensures Picks(m, [F6()], [F4(m), F5()], F6(), Chosen([F6()], [F4(m)]))
  {
    hide SizeOf, WrittenSize;
    PickAlone(m, 1, F6(), [F4(m), F5()]);
    OnlyFirstOverlaps(m, UserRange([F6()]));
  }

  lemma BeforeSecondBegin(m: Limit)
    ensures var d := D21(m);
            && d.v == Levels([F6()], [F4(m), F5()]) && d.v[1] == [F6()] && d.v[2] == [F4(m), F5()] &&
               |d.v| == NUM_LEVELS
            && d.running.None? && d.imm.None? && SmallestSnapshot(d) == 6 && Bounded([F6()])
  {
    hide F4, F5, SizeOf, WrittenSize;
  }

  lemma SecondBegin(m: Limit)
    ensures Goes(m, D21(m), Begin(1, F6()), D22(m))
    ensures Goes(m, D22(m), Reserve, D23(m))
  {
    hide SizeOf, WrittenSize;
    BeforeSecondBegin(m);
    SecondPick(m);
    hide Pick, F4, F5, F6, Goes, Bounded, SmallestSnapshot, Levels;
    BeginGoes(m, D21(m), 1, F6(), Chosen([F6()], [F4(m)]));
    ReserveGoes(m, D22(m));
    assert {} + {7} == {7};
  }

  function Merged2(m: Limit): Run { [Again1(), Put1(m), Put2(), Del3()] }

  lemma SecondMerge(m: Limit)
    ensures MergedInputs(C2(m, {7})) == Merged2(m)
  {
    hide *;
    SecondInputs(m);
    MergeOfTwo([Again1()], [Put1(m), Put2(), Del3()]);
    SecondMerge2(m);
  }

  lemma SecondInputs(m: Limit)
    ensures MergedInputs(C2(m, {7})) == Merge([[Again1()], [Put1(m), Put2(), Del3()]])
  {
    hide Contents, Merge, SizeOf, WrittenSize;
    ContentsOfOne(F6());
    ContentsOfOne(F4(m));
    assert InputRuns(C2(m, {7})) == [F6().run, F4(m).run];
  }

  lemma SecondMerge2(m: Limit)
    ensures Merge2([Again1()], [Put1(m), Put2(), Del3()]) == Merged2(m)
  {
    var a: Run, b: Run := [Again1()], [Put1(m), Put2(), Del3()];
    assert a[1..] == [] && Merge2([], b) == b;
  }

  /** The older put of key 1 is hidden, and the marker of key 3 is dropped as obsolete. */
  lemma SecondKept(m: Limit)
    ensures var v := Levels([F6()], [F4(m), F5()]); Kept(v, 1, 6, Merged2(m), 4) == [Again1(), Put2()]
  {
    hide SizeOf, WrittenSize;
    var v, all := Levels([F6()], [F4(m), F5()]), Merged2(m);
    assert IsBase(v, 1, 3.0);
    assert !Dropped(v, 1, 6, all, 0) && Dropped(v, 1, 6, all, 1) && !Dropped(v, 1, 6, all, 2) &&
           Dropped(v, 1, 6, all, 3);
    hide Dropped;
    assert Kept(v, 1, 6, all, 1) == [Again1()];
    assert Kept(v, 1, 6, all, 2) == [Again1()];
    assert Kept(v, 1, 6, all, 3) == [Again1(), Put2()];
  }

  lemma SecondFits(m: Limit)
    ensures Fits(C2(m, {7}), D23(m).v, [F7()], D24(m).v)
  {
    hide SizeOf, WrittenSize;
    assert D23(m).v == Levels([F6()], [F4(m), F5()]) && D24(m).v == Levels([], [F7(), F5()]);
    assert [F6()] + [F4(m), F5()] + [F7()] == [F6(), F4(m), F5(), F7()];
    LevelsFit(C2(m, {7}), [F6()], [F4(m), F5()], [F7()], [F7(), F5()]);
  }

  lemma SecondOutputsOk()
    ensures AllFilesOk([F7()]) && Disjoint([F7()]) && DistinctNumbers([F7()]) && Contents([F7()]) == [Again1(), Put2()]
  {
    hide SizeOf, WrittenSize;
    assert FileOk(F7());
  }

  lemma SecondIsNoMove(m: Limit)
    ensures !IsTrivialMove(m, C2(m, {7})) && F7().number == 7
  {
    hide SizeOf, WrittenSize;
  }

  lemma SecondCut(m: Limit)
    ensures CutBySize(m, [F7()])
  {
    hide SizeOf, WrittenSize, Filler;
    CutFallsBehindMarker(m);
    assert F7().run[..1] == [Again1()];
  }

  lemma SecondInstall(m: Limit)
    ensures Goes(m, D23(m), Install([F7()]), D24(m))
  {
    hide Fits, AllFilesOk, Disjoint, Kept, MergedInputs, Contents, DistinctNumbers, IsTrivialMove, CutBySize, F4, F5,
         F6, F7, Goes, SizeOf, WrittenSize;
    SecondMerge(m);
    SecondKept(m);
    SecondFits(m);
    SecondOutputsOk();
    SecondIsNoMove(m);
    SecondCut(m);
    assert |D23(m).v| == NUM_LEVELS && D23(m).running == Some(C2(m, {7}));
    InstallGoes(m, D23(m), [F7()], D24(m).v);
  }

  lemma OldValueIsBack(m: Limit)
    ensures Get(D24(m), 3.0, 6) == Some(Put3())
    ensures Lookup(Replay(D24(m).log, 6), 3.0) == None
  {
    hide Replay, Filler, GetFrom, F5, F7, SizeOf, WrittenSize;
    OldValueIsFound();
    HistoryDeletes(m);
    assert D24(m).v == Levels([], [F7(), F5()]) && D24(m).mem == [] && D24(m).imm == None;
  }

  lemma OldValueIsFound()
    ensures GetFrom(Levels([], [F7(), F5()]), 0, 3.0, 6) == Some(Put3())
  {
    hide SizeOf, WrittenSize;
    var two := [F7(), F5()];
    var v := Levels([], two);
    assert FileIndex(two, LookupKey(3.0, 6)) == 1 by { assert two[1..] == [F5()]; }
    assert SortedLevelGet(two, 3.0, 6) == Some(Put3());
    hide SortedLevelGet, FileIndex, F5, F7;
    assert GetFrom(v, 2, 3.0, 6) == Some(Put3());
    assert GetFrom(v, 1, 3.0, 6) == Some(Put3());
  }

  lemma ReplayLast(h: seq<Entry>, e: Entry, s: nat)
    requires e.ik.seqno <= s
    ensures Lookup(Replay(h + [e], s), e.ik.user) == if e.ik.typ.Value? then Some(e.value) else None
    ensures forall u :: u != e.ik.user ==> Lookup(Replay(h + [e], s), u) == Lookup(Replay(h, s), u)
  {
    assert (h + [e])[..|h|] == h;
  }

  lemma LogIs(m: Limit)
    ensures D24(m).log == [Put3()] + [Del3()] + [Put1(m)] + [Put2()] + [Put4()] + [Again1()]
  {
    hide SizeOf, WrittenSize, Filler, Levels, F2, F3, F4, F5, F6, F7;
  }

  lemma HistoryDeletes(m: Limit)
    ensures Lookup(Replay(D24(m).log, 6), 3.0) == None
  {
    hide Replay, Lookup, Filler, D24;
    var h := [Put3()];
    ReplayLast(h, Del3(), 6);
    ReplayLast(h + [Del3()], Put1(m), 6);
    ReplayLast(h + [Del3()] + [Put1(m)], Put2(), 6);
    ReplayLast(h + [Del3()] + [Put1(m)] + [Put2()], Put4(), 6);
    ReplayLast(h + [Del3()] + [Put1(m)] + [Put2()] + [Put4()], Again1(), 6);
    LogIs(m);
  }

  // ------------------------------------------------------------------ the run

  ghost predicate HonestRun(m: Limit, states: seq<Db>, actions: seq<Action>) {
    && IsRun(m, states, actions)
    && forall i :: 0 <= i < |actions| ==> Honest(m, states[i], actions[i])
  }

  ghost predicate HonestlyReachable(m: Limit, d: Db) {
    exists states, actions :: HonestRun(m, states, actions) && states[|actions|] == d
  }

  lemma InitialIsReachable(m: Limit)
    ensures HonestlyReachable(m, Initial())
  {
    assert HonestRun(m, [Initial()], []);
  }

  lemma Next(m: Limit, d: Db, a: Action, d': Db)
    requires HonestlyReachable(m, d) && Goes(m, d, a, d')
    ensures HonestlyReachable(m, d')
  {
    hide Enabled, Apply, Honest, SizeOf, WrittenSize;
    var states, actions :| HonestRun(m, states, actions) && states[|actions|] == d;
    RunExtends(m, states, actions, a);
    assert HonestRun(m, states + [d'], actions + [a]);
  }

  lemma ReachFirstFlush(m: Limit)
    ensures HonestlyReachable(m, D7())
  {
    hide SizeOf, WrittenSize;
    assert D0() == Initial();
    hide Goes, HonestlyReachable, D0, D1, D2, D3, D4, D5, D6, D7;
    InitialIsReachable(m);
    FirstWrites(m);
    FirstFlush(m);
    Next(m, D0(), Insert(3.0, Value, "old"), D1());
    Next(m, D1(), Publish, D2());
    Next(m, D2(), TakeSnapshot, D3());
    Next(m, D3(), Insert(3.0, Deletion, ""), D4());
    Next(m, D4(), Publish, D5());
    Next(m, D5(), Switch, D6());
    Next(m, D6(), Flush(F2().size), D7());
  }

  lemma ReachSecondFlush(m: Limit)
    ensures HonestlyReachable(m, D12(m))
  {
    hide Goes, HonestlyReachable, D7, D8, D9, D9b, D10, D11, D12, F3, SizeOf, WrittenSize;
    ReachFirstFlush(m);
    SecondWrites(m);
    SecondFlush(m);
    Next(m, D7(), Insert(1.0, Value, Filler(m - 100)), D8(m));
    Next(m, D8(m), Insert(2.0, Value, Filler(4067)), D9(m));
    Next(m, D9(m), Insert(4.0, Value, "b"), D9b(m));
    Next(m, D9b(m), Publish, D10(m));
    Next(m, D10(m), Switch, D11(m));
    Next(m, D11(m), Flush(F3(m).size), D12(m));
  }

  lemma ReachFirstInstall(m: Limit)
    ensures HonestlyReachable(m, D16(m))
  {
    hide Goes, HonestlyReachable, D12, D13, D14, D15, D16, F3, F4, F5, SizeOf, WrittenSize;
    ReachSecondFlush(m);
    FirstBegin(m);
    FirstReserves(m);
    FirstInstall(m);
    Next(m, D12(m), Begin(1, F3(m)), D13(m));
    Next(m, D13(m), Reserve, D14(m));
    Next(m, D14(m), Reserve, D15(m));
    Next(m, D15(m), Install([F4(m), F5()]), D16(m));
  }

  lemma ReachThirdFlush(m: Limit)
    ensures HonestlyReachable(m, D21(m))
  {
    hide Goes, HonestlyReachable, D16, D17, D18, D19, D20, D21, SizeOf, WrittenSize;
    ReachFirstInstall(m);
    SnapshotReleased(m);
    ThirdWrites(m);
    ThirdFlush(m);
    Next(m, D16(m), ReleaseSnapshot(0), D17(m));
    Next(m, D17(m), Insert(1.0, Value, "c"), D18(m));
    Next(m, D18(m), Publish, D19(m));
    Next(m, D19(m), Switch, D20(m));
    Next(m, D20(m), Flush(F6().size), D21(m));
  }

  lemma ReachSecondInstall(m: Limit)
    ensures HonestlyReachable(m, D24(m))
  {
    hide Goes, HonestlyReachable, D21, D22, D23, D24, F6, F7, SizeOf, WrittenSize;
    ReachThirdFlush(m);
    SecondBegin(m);
    SecondInstall(m);
    Next(m, D21(m), Begin(1, F6()), D22(m));
    Next(m, D22(m), Reserve, D23(m));
    Next(m, D23(m), Install([F7()]), D24(m));
  }

  /** Key 3 was put, then deleted, and no snapshot is left; yet in a reachable state a read of
      the latest data returns the deleted value.  The second compaction took the level-2 file
      with the marker and left behind the level-2 file, starting at the same user key, that
      holds the value. */
  lemma DeletedKeyReturns(m: Limit)
    ensures HonestlyReachable(m, D24(m)) && Readable(D24(m), D24(m).last)
    ensures Answer(Get(D24(m), 3.0, D24(m).last)) == Some("old")
    ensures Lookup(Replay(D24(m).log, D24(m).last), 3.0) == None
  {
    hide HonestlyReachable, Replay, Get, Lookup, Filler, SizeOf, WrittenSize;
    ReachSecondInstall(m);
    OldValueIsBack(m);
    assert D24(m).last == 6;
  }
}
