/** What the choice of compaction inputs comes to: no more files than the rules call for, and growth exactly where it is
    allowed (db/version_set.cc AddBoundaryInputs, SetupOtherInputs). */
module PickingRules {
  import opened Keys
  import opened Versions
  import opened Inputs
  import opened Selection
  import opened Picking

  // ------------------------------------------------------------------ sizes

  /** The total size is the sum over the files, in any split. */
  lemma {:induction false} TotalAdds(a: seq<File>, b: seq<File>)
    ensures TotalFileSize(a + b) == TotalFileSize(a) + TotalFileSize(b)
  {
    if b == [] {
      assert a + b == a;
    } else {
      assert (a + b)[..|a + b| - 1] == a + b[..|b| - 1];
      TotalAdds(a, b[..|b| - 1]);
    }
  }

  lemma TotalOfNone()
    ensures TotalFileSize([]) == 0
  {
  }

  lemma TotalGrows(files: seq<File>, from: nat, to: nat)
    requires from <= to < |files|
    ensures TotalFileSize(files[from..to + 1]) == TotalFileSize(files[from..to]) + files[to].size
  {
    TotalOfOne(files[to]);
    TotalAdds(files[from..to], [files[to]]);
    assert files[from..to + 1] == files[from..to] + [files[to]];
  }

  lemma TotalOfOne(f: File)
    ensures TotalFileSize([f]) == f.size && TotalFileSize([]) == 0
  {
    assert [f][..0] == [];
  }

  // ------------------------------------------------------------------ boundary files

  /** The earliest file that continues the user key in which a file of the set ends is in the set. */
  ghost predicate ClosedUnderBoundary(files: seq<File>, x: set<File>) {
    forall g, f :: g in x && SmallestBoundary(files, g.largest) == Some(f) ==> f in x
  }

  lemma {:induction false} BoundaryStaysIn(files: seq<File>, g: File, x: set<File>)
    requires Bounded(files) && g in x && ClosedUnderBoundary(files, x)
    ensures forall f :: f in BoundaryFiles(files, g.largest) ==> f in x
    decreases FilesAfter(files, g.largest)
  {
    var b := SmallestBoundary(files, g.largest);
    if b.Some? {
      BoundaryAdvances(files, g.largest);
      BoundaryStaysIn(files, b.value, x);
    }
  }

  /** AddBoundaryInputs adds nothing but what closure under boundary files calls for. */
  lemma BoundaryIsLeast(files: seq<File>, inputs: seq<File>, x: set<File>)
    requires Bounded(files) && inputs != [] && ClosedUnderBoundary(files, x) && forall f :: f in inputs ==> f in x
    ensures forall f :: f in WithBoundary(files, inputs) ==> f in x
  {
    var k := LargestKey(inputs);
    var g :| g in inputs && g.largest == k;
    BoundaryStaysIn(files, g, x);
  }

  // ------------------------------------------------------------------ growth

  /** Growing changes the inputs of the level alone: the next-level inputs are the same files. */
  lemma GrowthKeepsNextLevel(maxFileSize: nat, level: nat, files0: seq<File>, files1: seq<File>, inputs0: seq<File>)
    requires LevelOk(level, files0) && Bounded(files0) && LevelOk(level + 1, files1)
    requires inputs0 != [] && Gathered(level, files0, inputs0) && Listed(level, inputs0) && GapFree(inputs0)
    ensures var first := FirstChoice(level, files0, files1, inputs0);
            var c := SetupOther(maxFileSize, level, files0, files1, inputs0);
            && (forall f :: f in c.inputs1 <==> f in first.inputs1)
            && (forall f :: f in first.inputs0 ==> f in c.inputs0)
  {
    hide LevelOk, Bounded, Widen, GapFree, OverlappingInputs, WithBoundary, LeavesNewer, TotalFileSize, Overlaps,
         UserRange;
    hide Gathered, Listed;
    var first := FirstChoice(level, files0, files1, inputs0);
    FirstChoiceOk(level, files0, files1, inputs0);
    var c := SetupOther(maxFileSize, level, files0, files1, inputs0);
    GrownOk(maxFileSize, level, files0, files1, first);
    if c != first {
      GrownCloses(level, files0, files1, first, c);
      RangeGrows(first.inputs0, c.inputs0);
      NextLevelIsBounded(level, files1, first.inputs1);
      NextLevelIsBounded(level, files1, c.inputs1);
      SameNextLevel(level, first.inputs1, c.inputs1);
    }
  }

  lemma NextLevelIsBounded(level: nat, files: seq<File>, part: seq<File>)
    requires LevelOk(level + 1, files) && forall f :: f in part ==> f in files
    ensures Bounded(part)
  {
    forall f | f in part ensures !Less(f.largest, f.smallest) { assert FileOk(f); }
  }

  lemma SameNextLevel(level: nat, a: seq<File>, b: seq<File>)
    requires Bounded(a) && Bounded(b) && Listed(level + 1, a) && Listed(level + 1, b) && |a| == |b| && forall f ::
             f in a ==> f in b
    ensures forall f :: f in b ==> f in a
  {
    NoRepeats(a);
    NoRepeats(b);
    var x, y := set f | f in a, set f | f in b;
    assert x <= y;
    SubsetOfSameSize(x, y);
    forall f | f in b ensures f in a { assert f in y; }
  }

  lemma SubsetOfSameSize(x: set<File>, y: set<File>)
    requires x <= y && |x| >= |y|
    ensures x == y
  {
    if f :| f in y && f !in x {
      assert x <= y - {f};
      SubsetIsNoLarger(x, y - {f});
    }
  }

  lemma {:induction false} SubsetIsNoLarger(x: set<File>, y: set<File>)
    requires x <= y
    ensures |x| <= |y|
  {
    if f :| f in x { SubsetIsNoLarger(x - {f}, y - {f}); }
  }

  lemma {:induction false} NoRepeats(files: seq<File>)
    requires Disjoint(files) && Bounded(files)
    ensures |set f | f in files| == |files|
  {
    if files != [] {
      var n := |files| - 1;
      NoRepeats(files[..n]);
      var x := set f | f in files[..n];
      assert files == files[..n] + [files[n]];
      assert (set f | f in files) == x + {files[n]};
      assert files[n] !in x by {
        assert forall i :: 0 <= i < n ==>
               Less(files[i].largest, files[n].smallest) && !Less(files[n].largest, files[n].smallest);
      }
    }
  }

  // ------------------------------------------------------------------ an example

  function Spans(number: nat, size: nat, from: UserKey, to: UserKey): File {
    File(number, size, IKey(from, 1, Value), IKey(to, 1, Value), [])
  }

  lemma OneOverlaps(f: File, r: Range)
    ensures Overlapping([f], r) == if Overlaps(f, r) then [f] else []
  {
    assert [f][1..] == [] && Overlapping([], r) == [];
  }

  lemma TwoOverlap(f: File, g: File, r: Range)
    ensures Overlapping([f, g], r) == (if Overlaps(f, r) then [f] else []) + (if Overlaps(g, r) then [g] else [])
  {
    assert [f, g][1..] == [g];
    OneOverlaps(g, r);
  }

  lemma RangeOfTwo(f: File, g: File)
    requires Less(f.smallest, g.smallest) && Less(f.largest, g.largest)
    ensures UserRange([f]) == Range(Some(f.smallest.user), Some(f.largest.user))
    ensures UserRange([f, g]) == Range(Some(f.smallest.user), Some(g.largest.user))
  {
    assert [f, g][..1] == [f];
    RangeStep([f, g], 1);
    assert [f, g][..2] == [f, g];
  }

  lemma SizeOfTwo(f: File, g: File)
    ensures TotalFileSize([f, g]) == f.size + g.size && TotalFileSize([f]) == f.size
  {
    TotalOfOne(f);
    TotalOfOne(g);
    TotalAdds([f], [g]);
    assert [f] + [g] == [f, g];
  }

  lemma NothingContinues(fa: File, fb: File)
    requires fa.largest.user != fb.smallest.user && !ContinuesKey(fa, fa.largest) && !ContinuesKey(fb, fb.largest)
    requires !ContinuesKey(fa, fb.largest) && Less(fa.largest, fb.largest) && Bounded([fa, fb])
    ensures WithBoundary([fa, fb], [fa]) == [fa] && WithBoundary([fa, fb], [fa, fb]) == [fa, fb]
  {
    NoBoundaryHere(fa, fb, fa.largest);
    NoBoundaryHere(fa, fb, fb.largest);
    LargestOfTwo(fa, fb);
    hide LargestKey, SmallestBoundary;
    assert [fa] + [] == [fa] && [fa, fb] + [] == [fa, fb];
  }

  /** Two files of the level and one of the next that overlaps both: the file next to the seed joins the inputs if and
      only if all three together stay below the limit. */
  lemma NeighbourJoinsIff(maxFileSize: nat, a: nat, b: nat, x: nat)
    ensures var fa, fb, fx := Spans(1, a, 1.0, 3.0), Spans(2, b, 5.0, 7.0), Spans(3, x, 2.0, 6.0);
            Bounded([fa, fb]) &&
            Pick(maxFileSize, 1, [fa, fb], [fx], fa) ==
              if a + b + x < 25 * maxFileSize then Chosen([fa, fb], [fx]) else Chosen([fa], [fx])
  {
    var fa, fb, fx := Spans(1, a, 1.0, 3.0), Spans(2, b, 5.0, 7.0), Spans(3, x, 2.0, 6.0);
    NothingContinues(fa, fb);
    RangeOfTwo(fa, fx);
    RangeOfTwo(fa, fb);
    OneOverlaps(fx, Range(Some(1.0), Some(3.0)));
    OneOverlaps(fx, Range(Some(1.0), Some(7.0)));
    TwoOverlap(fa, fb, Range(Some(1.0), Some(6.0)));
    SizeOfTwo(fa, fb);
    SizeOfTwo(fx, fx);
    hide Overlapping, UserRange, TotalFileSize, WithBoundary;
    var first := Chosen([fa], [fx]);
    assert FirstChoice(1, [fa, fb], [fx], [fa]) == first;
    assert first.inputs0 + first.inputs1 == [fa, fx] && [fa] + [fb] == [fa, fb];
    assert OverlappingInputs(1, [fa, fb], UserRange([fa, fx])) == [fa, fb];
    assert OverlappingInputs(2, [fx], UserRange([fa, fb])) == [fx];
    hide OverlappingInputs;
    assert Grown(maxFileSize, 1, [fa, fb], [fx], first) ==
           if a + b + x < 25 * maxFileSize then Chosen([fa, fb], [fx]) else first;
  }

  lemma LargestOfTwo(f: File, g: File)
    requires Less(f.largest, g.largest)
    ensures LargestKey([f]) == f.largest && LargestKey([f, g]) == g.largest
  {
    assert [f, g][..1] == [f];
  }

  lemma NoBoundaryHere(fa: File, fb: File, largest: IKey)
    requires !ContinuesKey(fa, largest) && !ContinuesKey(fb, largest)
    ensures SmallestBoundary([fa, fb], largest) == None
  {
  }
}
