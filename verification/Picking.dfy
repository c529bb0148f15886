/** PickCompaction and SetupOtherInputs (db/version_set.cc), from the file that starts a
    compaction to the two sets of input files.  */
module Picking {
  import opened Keys
  import opened Versions
  import opened Inputs
  import opened Selection

  datatype Chosen = Chosen(inputs0: seq<File>, inputs1: seq<File>)

  function TotalFileSize(files: seq<File>): nat {
    if files == [] then 0 else TotalFileSize(files[..|files| - 1]) + files[|files| - 1].size
  }

  method SumFileSizes(files: seq<File>) returns (sum: nat)
    ensures sum == TotalFileSize(files)
  {
    sum := 0;
    for i := 0 to |files|
      invariant sum == TotalFileSize(files[..i])
    {
      assert files[..i + 1][..i] == files[..i];
      sum := sum + files[i].size;
    }
    assert files[..|files|] == files;
  }

  // ------------------------------------------------------------------ specification

  /** Grow the inputs in `level` when that does not change the inputs in `level + 1`. */
  function Grown(maxFileSize: nat, level: nat, files0: seq<File>, files1: seq<File>, c: Chosen): Chosen
    requires Bounded(files0) && c.inputs0 != []
  {
    if c.inputs1 == [] then c else
    var expanded0 := WithBoundary(files0, OverlappingInputs(level, files0, UserRange(c.inputs0 + c.inputs1)));
    if |expanded0| > |c.inputs0| && TotalFileSize(c.inputs1) + TotalFileSize(expanded0) < 25 * maxFileSize then
      var expanded1 := OverlappingInputs(level + 1, files1, UserRange(expanded0));
      if |expanded1| == |c.inputs1| then Chosen(expanded0, expanded1) else c
    else c
  }

  function FirstChoice(level: nat, files0: seq<File>, files1: seq<File>, inputs0: seq<File>): Chosen
    requires Bounded(files0) && inputs0 != []
  {
    var all0 := WithBoundary(files0, inputs0);
    Chosen(all0, OverlappingInputs(level + 1, files1, UserRange(all0)))
  }

  function SetupOther(maxFileSize: nat, level: nat, files0: seq<File>, files1: seq<File>, inputs0: seq<File>): Chosen
    requires Bounded(files0) && inputs0 != []
  {
    Grown(maxFileSize, level, files0, files1, FirstChoice(level, files0, files1, inputs0))
  }

  /** The rule for growing: with next-level inputs, let `e` be the files of the level that overlap the range of both
      input sets, with boundary files.  If they are more, together with the next-level inputs below 25 file sizes, and
      their own range overlaps as many next-level files, they are the inputs; otherwise the first choice is. */
  ghost predicate GrowsWhenAllowed(maxFileSize: nat, level: nat, files0: seq<File>, files1: seq<File>, first: Chosen,
                                   c: Chosen)
    requires Bounded(files0) && first.inputs0 != []
  {
    var e := WithBoundary(files0, OverlappingInputs(level, files0, UserRange(first.inputs0 + first.inputs1)));
    if && first.inputs1 != [] && |e| > |first.inputs0|
       && TotalFileSize(first.inputs1) + TotalFileSize(e) < 25 * maxFileSize
       && |OverlappingInputs(level + 1, files1, UserRange(e))| == |first.inputs1|
    then c == Chosen(e, OverlappingInputs(level + 1, files1, UserRange(e)))
    else c == first
  }

  /** The level inputs PickCompaction starts from: the file itself, or at level 0 all it overlaps. */
  function StartInputs(level: nat, files0: seq<File>, seed: File): (r: seq<File>)
    requires Bounded(files0) && seed in files0
    ensures seed in r
  {
    if level == 0 then
      WidenIsLeastClosed(files0, UserRange([seed]));
      OverlappingInputs(0, files0, UserRange([seed]))
    else [seed]
  }

  function Pick(maxFileSize: nat, level: nat, files0: seq<File>, files1: seq<File>, seed: File): Chosen
    requires Bounded(files0) && seed in files0
  {
    SetupOther(maxFileSize, level, files0, files1, StartInputs(level, files0, seed))
  }

  // ------------------------------------------------------------------ the methods

  /** The files of a level that overlap the user range of `inputs`. */
  method OverlappingRangeOf(level: nat, files: seq<File>, inputs: seq<File>) returns (r: seq<File>)
    requires inputs != []
    ensures r == OverlappingInputs(level, files, UserRange(inputs))
  {
    var smallest, largest := GetRange(inputs);
    r := GetOverlappingInputs(level, files, Range(Some(smallest.user), Some(largest.user)));
  }

  method ExpandInputs(level: nat, files0: seq<File>, c: Chosen) returns (expanded0: seq<File>)
    requires Bounded(files0) && c.inputs0 != []
    ensures expanded0 == WithBoundary(files0, OverlappingInputs(level, files0, UserRange(c.inputs0 + c.inputs1)))
  {
    expanded0 := OverlappingRangeOf(level, files0, c.inputs0 + c.inputs1);
    expanded0 := AddBoundaryInputs(files0, expanded0);
  }

  method SetupOtherInputs(maxFileSize: nat, level: nat, files0: seq<File>, files1: seq<File>, start: seq<File>)
    returns (c: Chosen)
    requires Bounded(files0) && start != []
    ensures c == SetupOther(maxFileSize, level, files0, files1, start)
    ensures var all0 := WithBoundary(files0, start);
            GrowsWhenAllowed(maxFileSize, level, files0, files1,
                             Chosen(all0, OverlappingInputs(level + 1, files1, UserRange(all0))), c)
  {
    var inputs0 := AddBoundaryInputs(files0, start);
    var inputs1 := OverlappingRangeOf(level + 1, files1, inputs0);
    c := Chosen(inputs0, inputs1);
    if inputs1 != [] {
      var expanded0 := ExpandInputs(level, files0, c);
      var size1 := SumFileSizes(inputs1);
      var grown0 := SumFileSizes(expanded0);
      if |expanded0| > |inputs0| && size1 + grown0 < 25 * maxFileSize {
        var expanded1 := OverlappingRangeOf(level + 1, files1, expanded0);
        if |expanded1| == |inputs1| {
          c := Chosen(expanded0, expanded1);
        }
      }
    }
  }

  method PickCompaction(maxFileSize: nat, level: nat, files0: seq<File>, files1: seq<File>, seed: File)
    returns (c: Chosen)
    requires Bounded(files0) && seed in files0
    ensures c == Pick(maxFileSize, level, files0, files1, seed)
    ensures var start := if level == 0 then OverlappingInputs(0, files0, UserRange([seed])) else [seed];
            var all0 := WithBoundary(files0, start);
            start != [] && GrowsWhenAllowed(maxFileSize, level, files0, files1,
                             Chosen(all0, OverlappingInputs(level + 1, files1, UserRange(all0))), c)
  {
    var inputs0 := [seed];
    if level == 0 {
      inputs0 := OverlappingRangeOf(0, files0, inputs0);
    }
    assert inputs0 == StartInputs(level, files0, seed);
    c := SetupOtherInputs(maxFileSize, level, files0, files1, inputs0);
  }

  // ------------------------------------------------------------------ what the choice guarantees

  ghost predicate LevelOk(level: nat, files: seq<File>) {
    && AllFilesOk(files) && UniqueSeqnos(LevelEntries(files))
    && if level == 0 then DistinctNumbers(files) else Disjoint(files)
  }

  /** The state between steps: nothing left behind separates the inputs of the level. */
  ghost predicate Gathered(level: nat, files: seq<File>, inputs: seq<File>) {
    && inputs != [] && (forall f :: f in inputs ==> f in files)
    && if level == 0 then UserClosed(files, inputs) else Contiguous(files, inputs)
  }

  ghost predicate Closing(level: nat, files: seq<File>, inputs: seq<File>) {
    && inputs != [] && (forall f :: f in inputs ==> f in files)
    && LeavesNewer(files, inputs)
  }

  /** How the inputs of a level are listed: in key order, or at level 0 without repetition. */
  ghost predicate Listed(level: nat, inputs: seq<File>) {
    if level == 0 then DistinctNumbers(inputs) else Disjoint(inputs)
  }

  ghost predicate ChosenOk(level: nat, files0: seq<File>, files1: seq<File>, c: Chosen) {
    && Closing(level, files0, c.inputs0)
    && (forall f :: f in c.inputs1 <==> f in files1 && Overlaps(f, UserRange(c.inputs0)))
    && GapFree(c.inputs0 + c.inputs1)
    && Listed(level, c.inputs0) && Listed(level + 1, c.inputs1)
  }

  lemma WithBoundaryIsListed(level: nat, files: seq<File>, inputs: seq<File>)
    requires Bounded(files) && Gathered(level, files, inputs) && Listed(level, inputs)
    ensures Listed(level, WithBoundary(files, inputs))
  {
    if level == 0 {
      UserClosedHasNoBoundary(files, inputs);
      assert WithBoundary(files, inputs) == inputs;
    } else {
      BoundaryKeepsOrder(files, inputs);
    }
  }

  lemma GatheredCloses(level: nat, files: seq<File>, inputs: seq<File>)
    requires LevelOk(level, files) && Bounded(files)
    requires Gathered(level, files, inputs)
    ensures Closing(level, files, WithBoundary(files, inputs))
    ensures forall f :: f in inputs ==> f in WithBoundary(files, inputs)
  {
    if level == 0 {
      UserClosedHasNoBoundary(files, inputs);
      assert WithBoundary(files, inputs) == inputs;
      UserClosedLeavesNewer(files, inputs);
    } else {
      BoundaryFilesClose(files, inputs, WithBoundary(files, inputs));
      ContiguousLeavesNewer(files, WithBoundary(files, inputs));
    }
  }

  lemma OverlappingGathers(level: nat, files: seq<File>, r: Range)
    requires LevelOk(level, files) && Bounded(files)
    requires r.begin.Some? && r.end.Some? && OverlappingInputs(level, files, r) != []
    ensures Gathered(level, files, OverlappingInputs(level, files, r))
    ensures Listed(level, OverlappingInputs(level, files, r))
  {
    OverlappingKeepsOrder(files, if level == 0 then Widen(files, r) else r);
    if level == 0 {
      WidenedIsUserClosed(files, r);
    } else {
      OverlappingIsContiguous(files, r);
    }
  }

  lemma StartGathers(level: nat, files0: seq<File>, seed: File)
    requires LevelOk(level, files0) && Bounded(files0) && seed in files0
    ensures Gathered(level, files0, StartInputs(level, files0, seed))
    ensures Listed(level, StartInputs(level, files0, seed)) && GapFree(StartInputs(level, files0, seed))
  {
    if level == 0 {
      assert seed in StartInputs(0, files0, seed);
      OverlappingGathers(0, files0, UserRange([seed]));
      forall x | UserRange([seed]).begin.value <= x <= UserRange([seed]).end.value
        ensures CoveredBy([seed], x)
      {
        assert Covers(seed, x);
      }
      WidenedIsGapFree(files0, UserRange([seed]), [seed], StartInputs(0, files0, seed));
    } else {
      forall f | f in files0 && f != seed ensures Apart(f, [seed]) {
        DisjointOrders(files0, f, seed);
      }
      forall x | seed.smallest.user <= x <= seed.largest.user
        ensures CoveredBy([seed], x)
      {
        assert Covers(seed, x);
      }
    }
  }

  lemma FirstChoiceOk(level: nat, files0: seq<File>, files1: seq<File>, inputs0: seq<File>)
    requires LevelOk(level, files0) && Bounded(files0)
    requires LevelOk(level + 1, files1)
    requires Gathered(level, files0, inputs0) && Listed(level, inputs0) && GapFree(inputs0)
    ensures ChosenOk(level, files0, files1, FirstChoice(level, files0, files1, inputs0))
  {
    var c := FirstChoice(level, files0, files1, inputs0);
    GatheredCloses(level, files0, inputs0);
    WithBoundaryIsListed(level, files0, inputs0);
    OverlappingKeepsOrder(files1, UserRange(c.inputs0));
    var largest := LargestKey(inputs0);
    var g :| g in inputs0 && g.largest == largest;
    BoundaryIsGapFree(files0, largest, inputs0, g);
    AddOverlapping(c.inputs0, c.inputs1, c.inputs0 + c.inputs1);
  }

  lemma ExpandedIsGapFree(level: nat, files0: seq<File>, c: Chosen, overlapping0: seq<File>, all: seq<File>)
    requires Bounded(files0) && ChosenRange(c) &&
             overlapping0 == OverlappingInputs(level, files0, UserRange(c.inputs0 + c.inputs1))
    requires forall f :: f in all <==> f in c.inputs0 + c.inputs1 || f in overlapping0
    ensures GapFree(all)
  {
    var x := c.inputs0 + c.inputs1;
    if level == 0 {
      GapFreeCoversRange(x);
      WidenedIsGapFree(files0, UserRange(x), x, all);
    } else {
      AddOverlapping(x, overlapping0, all);
    }
  }

  ghost predicate ChosenRange(c: Chosen) {
    c.inputs0 != [] && GapFree(c.inputs0 + c.inputs1)
  }

  /** The grown inputs: what they are made of, and that their own level is closed again. */
  lemma GrownCloses(level: nat, files0: seq<File>, files1: seq<File>, c: Chosen, r: Chosen)
    requires LevelOk(level, files0) && Bounded(files0) && LevelOk(level + 1, files1)
    requires ChosenOk(level, files0, files1, c) && GrownTo(level, files0, files1, c, r)
    ensures Closing(level, files0, r.inputs0) && Listed(level, r.inputs0) && Listed(level + 1, r.inputs1)
    ensures forall f :: f in r.inputs1 <==> f in files1 && Overlaps(f, UserRange(r.inputs0))
    ensures forall f :: f in c.inputs0 ==> f in r.inputs0
  {
    hide GapFree;
    var x := c.inputs0 + c.inputs1;
    var over0 := OverlappingInputs(level, files0, UserRange(x));
    InputsOverlapTheirRange(level, files0, x, c.inputs0);
    OverlappingGathers(level, files0, UserRange(x));
    GatheredCloses(level, files0, over0);
    WithBoundaryIsListed(level, files0, over0);
    OverlappingKeepsOrder(files1, UserRange(r.inputs0));
  }

  ghost predicate GrownTo(level: nat, files0: seq<File>, files1: seq<File>, c: Chosen, r: Chosen)
    requires Bounded(files0) && c.inputs0 != []
  {
    && r.inputs0 == WithBoundary(files0, OverlappingInputs(level, files0, UserRange(c.inputs0 + c.inputs1)))
    && r.inputs0 != [] && r.inputs1 == OverlappingInputs(level + 1, files1, UserRange(r.inputs0))
  }

  lemma GrownIsGapFree(level: nat, files0: seq<File>, files1: seq<File>, c: Chosen, r: Chosen)
    requires Bounded(files0) && c.inputs0 != [] && GapFree(c.inputs0 + c.inputs1) &&
             GrownTo(level, files0, files1, c, r)
    requires forall f :: f in c.inputs0 ==> f in r.inputs0
    requires forall f :: f in r.inputs1 <==> f in files1 && Overlaps(f, UserRange(r.inputs0))
    requires forall f :: f in c.inputs1 <==> f in files1 && Overlaps(f, UserRange(c.inputs0))
    ensures GapFree(r.inputs0 + r.inputs1)
  {
    hide GapFree, Widen, Overlaps;
    var x := c.inputs0 + c.inputs1;
    var over0 := OverlappingInputs(level, files0, UserRange(x));
    ExpandedIsGapFree(level, files0, c, over0, x + over0);
    var largest := LargestKey(over0);
    var g :| g in over0 && g.largest == largest;
    BoundaryIsGapFree(files0, largest, x + over0, g);
    var y := x + over0 + BoundaryFiles(files0, largest);
    RangeGrows(c.inputs0, r.inputs0);
    assert forall f :: f in y <==> f in c.inputs1 || f in r.inputs0;
    RangeGrows(r.inputs0, y);
    AddOverlapping(y, r.inputs1, r.inputs0 + r.inputs1);
  }

  /** Growing keeps the guarantees: the grown set is closed again, and still without gaps. */
  lemma GrownOk(maxFileSize: nat, level: nat, files0: seq<File>, files1: seq<File>, c: Chosen)
    requires LevelOk(level, files0) && Bounded(files0) && LevelOk(level + 1, files1)
    requires ChosenOk(level, files0, files1, c)
    ensures ChosenOk(level, files0, files1, Grown(maxFileSize, level, files0, files1, c))
  {
    hide LevelOk, Bounded, Widen, OverlappingInputs, GapFree, Listed, LeavesNewer, Overlaps;
    var r := Grown(maxFileSize, level, files0, files1, c);
    if r != c {
      GrownCloses(level, files0, files1, c, r);
      GrownIsGapFree(level, files0, files1, c, r);
    }
  }

  lemma InputsOverlapTheirRange(level: nat, files0: seq<File>, x: seq<File>, inputs0: seq<File>)
    requires Bounded(files0) && x != []
    requires forall f :: f in inputs0 ==> f in files0 && f in x
    ensures forall f :: f in inputs0 ==> f in OverlappingInputs(level, files0, UserRange(x))
  {
    WidenIsLeastClosed(files0, UserRange(x));
  }

  lemma RangeGrows(inner: seq<File>, outer: seq<File>)
    requires inner != [] && forall f :: f in inner ==> f in outer
    ensures outer != [] && Contains(UserRange(outer), UserRange(inner))
    ensures forall f :: Overlaps(f, UserRange(inner)) ==> Overlaps(f, UserRange(outer))
  {
    assert inner[0] in outer;
    var lo, hi := SmallestKey(inner), LargestKey(inner);
    var f :| f in inner && f.smallest == lo;
    var g :| g in inner && g.largest == hi;
  }

  /** Whatever file starts a compaction, its inputs are closed in their own level, take every
      overlapping file of the next level, and form a chain without gaps. */
  lemma PickIsOk(maxFileSize: nat, level: nat, files0: seq<File>, files1: seq<File>, seed: File)
    requires LevelOk(level, files0) && Bounded(files0) && seed in files0 && LevelOk(level + 1, files1)
    ensures ChosenOk(level, files0, files1, Pick(maxFileSize, level, files0, files1, seed))
  {
    var start := StartInputs(level, files0, seed);
    StartGathers(level, files0, seed);
    FirstChoiceOk(level, files0, files1, start);
    GrownOk(maxFileSize, level, files0, files1, FirstChoice(level, files0, files1, start));
  }
}
