/** PickCompaction, AddBoundaryInputs and SetupOtherInputs (db/version_set.cc): which files a
    compaction reads, and what their choice guarantees.  */
module Selection {
  import opened Keys
  import opened Versions
  import opened Inputs

  // ------------------------------------------------------------------ ranges of file sets

  /** GetRange: the least smallest key and the greatest largest key. */
  function SmallestKey(files: seq<File>): (k: IKey)
    requires files != []
    ensures forall f :: f in files ==> !Less(f.smallest, k)
    ensures exists f :: f in files && f.smallest == k
  {
    if |files| == 1 then
      assert files[0] in files; files[0].smallest
    else
      var k := SmallestKey(files[..|files| - 1]);
      var f := files[|files| - 1];
      assert f in files;
      if Less(f.smallest, k) then f.smallest else k
  }

  function LargestKey(files: seq<File>): (k: IKey)
    requires files != []
    ensures forall f :: f in files ==> !Less(k, f.largest)
    ensures exists f :: f in files && f.largest == k
  {
    if |files| == 1 then
      assert files[0] in files; files[0].largest
    else
      var k := LargestKey(files[..|files| - 1]);
      var f := files[|files| - 1];
      assert f in files;
      if Less(k, f.largest) then f.largest else k
  }

  lemma RangeStep(files: seq<File>, i: nat)
    requires 0 < i < |files|
    ensures SmallestKey(files[..i + 1]) ==
            if Less(files[i].smallest, SmallestKey(files[..i])) then files[i].smallest else SmallestKey(files[..i])
    ensures LargestKey(files[..i + 1]) ==
            if Less(LargestKey(files[..i]), files[i].largest) then files[i].largest else LargestKey(files[..i])
  {
    assert files[..i + 1][..i] == files[..i];
  }

  method GetRange(inputs: seq<File>) returns (smallest: IKey, largest: IKey)
    requires inputs != []
    ensures smallest == SmallestKey(inputs) && largest == LargestKey(inputs)
  {
    smallest, largest := inputs[0].smallest, inputs[0].largest;
    for i := 1 to |inputs|
      invariant smallest == SmallestKey(inputs[..i]) && largest == LargestKey(inputs[..i])
    {
      RangeStep(inputs, i);
      if Less(inputs[i].smallest, smallest) {
        smallest := inputs[i].smallest;
      }
      if Less(largest, inputs[i].largest) {
        largest := inputs[i].largest;
      }
    }
    assert inputs[..|inputs|] == inputs;
  }

  function UserRange(files: seq<File>): Range
    requires files != []
  {
    Range(Some(SmallestKey(files).user), Some(LargestKey(files).user))
  }

  // ------------------------------------------------------------------ boundary files

  predicate ContinuesKey(f: File, largest: IKey) {
    Less(largest, f.smallest) && f.smallest.user == largest.user
  }

  /** FindSmallestBoundaryFile: the least file that continues the user key of `largest`. */
  function SmallestBoundary(files: seq<File>, largest: IKey): (b: Option<File>)
    ensures b.Some? ==> b.value in files && ContinuesKey(b.value, largest)
    ensures forall f :: f in files && ContinuesKey(f, largest) ==> b.Some? && !Less(f.smallest, b.value.smallest)
  {
    if files == [] then None else
    var b := SmallestBoundary(files[..|files| - 1], largest);
    var f := files[|files| - 1];
    assert files == files[..|files| - 1] + [f];
    if ContinuesKey(f, largest) && (b.None? || Less(f.smallest, b.value.smallest)) then Some(f) else b
  }

  method FindSmallestBoundaryFile(files: seq<File>, largest: IKey) returns (b: Option<File>)
    ensures b == SmallestBoundary(files, largest)
  {
    b := None;
    for i := 0 to |files|
      invariant b == SmallestBoundary(files[..i], largest)
    {
      assert files[..i + 1][..i] == files[..i];
      var f := files[i];
      if Less(largest, f.smallest) && f.smallest.user == largest.user {
        if b.None? || Less(f.smallest, b.value.smallest) {
          b := Some(f);
        }
      }
    }
    assert files[..|files|] == files;
  }

  ghost function FilesAfter(files: seq<File>, key: IKey): set<File> {
    set f | f in files && Less(key, f.smallest)
  }

  lemma BoundaryAdvances(files: seq<File>, largest: IKey)
    requires Bounded(files) && SmallestBoundary(files, largest).Some?
    ensures FilesAfter(files, SmallestBoundary(files, largest).value.largest) < FilesAfter(files, largest)
  {
    var b := SmallestBoundary(files, largest).value;
    assert b in FilesAfter(files, largest) && b !in FilesAfter(files, b.largest);
  }

  /** The files AddBoundaryInputs appends to a set whose largest key is `largest`. */
  function BoundaryFiles(files: seq<File>, largest: IKey): seq<File>
    requires Bounded(files)
    decreases FilesAfter(files, largest)
  {
    var b := SmallestBoundary(files, largest);
    if b.None? then [] else
      BoundaryAdvances(files, largest);
      [b.value] + BoundaryFiles(files, b.value.largest)
  }

  function WithBoundary(files: seq<File>, inputs: seq<File>): seq<File>
    requires Bounded(files)
  {
    if inputs == [] then [] else inputs + BoundaryFiles(files, LargestKey(inputs))
  }

  lemma BoundaryStep(files: seq<File>, largest: IKey, r: seq<File>)
    requires Bounded(files)
    ensures var b := SmallestBoundary(files, largest);
            r + BoundaryFiles(files, largest) ==
              if b.Some? then (r + [b.value]) + BoundaryFiles(files, b.value.largest) else r
  {
    hide SmallestBoundary, FilesAfter, Bounded;
  }

  method AddBoundaryInputs(files: seq<File>, inputs: seq<File>) returns (r: seq<File>)
    requires Bounded(files)
    ensures r == WithBoundary(files, inputs)
  {
    hide FilesAfter, SmallestBoundary, Bounded, BoundaryFiles;
    r := inputs;
    if inputs == [] {
      return;
    }
    var smallest, largest := GetRange(inputs);
    var searching := true;
    while searching
      invariant WithBoundary(files, inputs) == if searching then r + BoundaryFiles(files, largest) else r
      decreases FilesAfter(files, largest), searching
    {
      BoundaryStep(files, largest, r);
      var b := FindSmallestBoundaryFile(files, largest);
      if b.Some? {
        BoundaryAdvances(files, largest);
        r := r + [b.value];
        largest := b.value.largest;
      } else {
        searching := false;
      }
    }
  }

  // ------------------------------------------------------------------ properties of input sets

  /** `f` lies entirely before, or entirely after, every file of `inputs`. */
  ghost predicate Apart(f: File, inputs: seq<File>) {
    || (forall g :: g in inputs ==> Less(f.largest, g.smallest))
    || (forall g :: g in inputs ==> Less(g.largest, f.smallest))
  }

  /** The files of a level that are not inputs never separate two inputs. */
  ghost predicate Contiguous(files: seq<File>, inputs: seq<File>) {
    forall f :: f in files && f !in inputs ==> Apart(f, inputs)
  }

  /** No file left behind continues the user key of the inputs' largest key. */
  ghost predicate BoundaryClosed(files: seq<File>, inputs: seq<File>) {
    forall f, g :: f in files && f !in inputs && g in inputs ==>
      !(Less(g.largest, f.smallest) && g.largest.user == f.smallest.user)
  }

  /** What stays behind in the level is newer than what leaves it. */
  ghost predicate LeavesNewer(files: seq<File>, inputs: seq<File>) {
    forall f, g :: f in files && f !in inputs && g in inputs ==> Newer(Elems(f.run), Elems(g.run))
  }

  ghost predicate CoveredBy(files: seq<File>, user: UserKey) {
    exists f :: f in files && Covers(f, user)
  }

  /** Every user key between two inputs is covered by an input. */
  ghost predicate GapFree(files: seq<File>) {
    forall f, g, x :: f in files && g in files && f.smallest.user <= x <= g.largest.user ==> CoveredBy(files, x)
  }

  lemma DisjointOrders(files: seq<File>, f: File, g: File)
    requires Disjoint(files) && f in files && g in files
    ensures f == g || Less(f.largest, g.smallest) || Less(g.largest, f.smallest)
  {
    var i :| 0 <= i < |files| && files[i] == f;
    var j :| 0 <= j < |files| && files[j] == g;
  }

  /** No two entries share a sequence number. */
  ghost predicate UniqueSeqnos(es: set<Entry>) {
    forall x, y :: x in es && y in es && x.ik.seqno == y.ik.seqno ==> x == y
  }

  lemma ContiguousLeavesNewer(files: seq<File>, inputs: seq<File>)
    requires AllFilesOk(files) && UniqueSeqnos(LevelEntries(files))
    requires forall g :: g in inputs ==> g in files
    requires Contiguous(files, inputs) && BoundaryClosed(files, inputs)
    ensures LeavesNewer(files, inputs)
  {
    forall f, g | f in files && f !in inputs && g in inputs
      ensures Newer(Elems(f.run), Elems(g.run))
    {
      assert Apart(f, inputs);
      SmallestToLargest(f);
      SmallestToLargest(g);
      forall x, y | x in Elems(f.run) && y in Elems(g.run) && x.ik.user == y.ik.user
        ensures x.ik.seqno > y.ik.seqno
      {
        assert x in LevelEntries(files) && y in LevelEntries(files);
        if Less(f.largest, g.smallest) {
          assert Less(x.ik, y.ik);
        } else {
          assert Less(g.largest, f.smallest);
        }
      }
    }
  }

  // ------------------------------------------------------------------ what each selection step keeps

  lemma LargestKeyIs(files: seq<File>, g: File)
    requires g in files && forall f :: f in files ==> !Less(g.largest, f.largest)
    ensures LargestKey(files) == g.largest
  {
    LessComparesTrailers(LargestKey(files), g.largest);
  }

  lemma OverlappingIsContiguous(files: seq<File>, r: Range)
    requires Bounded(files) && Disjoint(files)
    ensures Contiguous(files, Overlapping(files, r))
  {
    var inputs := Overlapping(files, r);
    forall f | f in files && f !in inputs
      ensures Apart(f, inputs)
    {
      forall g | g in inputs
        ensures if r.begin.Some? && f.largest.user < r.begin.value then Less(f.largest, g.smallest)
                else Less(g.largest, f.smallest)
      {
        DisjointOrders(files, f, g);
      }
    }
  }

  lemma BoundaryKeepsContiguous(files: seq<File>, inputs: seq<File>)
    requires Bounded(files) && Disjoint(files) && ContiguousInputs(files, inputs)
    requires SmallestBoundary(files, LargestKey(inputs)).Some?
    ensures var b := SmallestBoundary(files, LargestKey(inputs)).value;
            ContiguousInputs(files, inputs + [b]) && LargestKey(inputs + [b]) == b.largest
  {
    var largest := LargestKey(inputs);
    var b := SmallestBoundary(files, largest).value;
    var last :| last in inputs && last.largest == largest;
    LargestKeyIs(inputs + [b], b);
    forall f | f in files && f !in inputs + [b]
      ensures Apart(f, inputs + [b])
    {
      DisjointOrders(files, f, b);
      assert Apart(f, inputs);
      if forall g :: g in inputs ==> Less(f.largest, g.smallest) {
        assert Less(f.largest, last.smallest);
      } else {
        assert Less(last.largest, f.smallest);
      }
    }
  }

  ghost predicate ContiguousInputs(files: seq<File>, inputs: seq<File>) {
    inputs != [] && (forall g :: g in inputs ==> g in files) && Contiguous(files, inputs)
  }

  lemma NoBoundaryLeft(files: seq<File>, inputs: seq<File>)
    requires Bounded(files) && ContiguousInputs(files, inputs)
    requires SmallestBoundary(files, LargestKey(inputs)).None?
    ensures BoundaryClosed(files, inputs)
  {
    var last :| last in inputs && last.largest == LargestKey(inputs);
    forall f, g | f in files && f !in inputs && g in inputs && Less(g.largest, f.smallest)
      ensures g.largest.user != f.smallest.user
    {
      assert Apart(f, inputs);
      assert Less(last.largest, f.smallest);
      assert !ContinuesKey(f, last.largest);
    }
  }

  lemma BoundaryUnfolds(files: seq<File>, inputs: seq<File>, r: seq<File>)
    requires Bounded(files) && inputs != []
    requires r == inputs + BoundaryFiles(files, LargestKey(inputs))
    requires SmallestBoundary(files, LargestKey(inputs)).Some?
    ensures var b := SmallestBoundary(files, LargestKey(inputs)).value;
            && r == inputs + [b] + BoundaryFiles(files, b.largest)
            && FilesAfter(files, b.largest) < FilesAfter(files, LargestKey(inputs))
  {
    BoundaryAdvances(files, LargestKey(inputs));
  }

  /** AddBoundaryInputs keeps the inputs contiguous and ends with nothing left to add. */
  lemma {:induction false} BoundaryFilesClose(files: seq<File>, inputs: seq<File>, r: seq<File>)
    requires Bounded(files) && Disjoint(files)
    requires inputs != [] && ContiguousInputs(files, inputs)
    requires r == inputs + BoundaryFiles(files, LargestKey(inputs))
    ensures ContiguousInputs(files, r) && BoundaryClosed(files, r)
    decreases FilesAfter(files, LargestKey(inputs))
  {
    var b := SmallestBoundary(files, LargestKey(inputs));
    if b.None? {
      assert r == inputs;
      NoBoundaryLeft(files, inputs);
    } else {
      BoundaryUnfolds(files, inputs, r);
      BoundaryKeepsContiguous(files, inputs);
      BoundaryFilesClose(files, inputs + [b.value], r);
    }
  }

  /** Level 0: files outside the set share no user key with files inside. */
  ghost predicate UserClosed(files: seq<File>, inputs: seq<File>) {
    forall f, g :: f in files && f !in inputs && g in inputs ==>
      f.largest.user < g.smallest.user || g.largest.user < f.smallest.user
  }

  lemma UserClosedLeavesNewer(files: seq<File>, inputs: seq<File>)
    requires AllFilesOk(files) && (forall g :: g in inputs ==> g in files)
    requires UserClosed(files, inputs)
    ensures LeavesNewer(files, inputs)
  {
    forall f, g | f in files && f !in inputs && g in inputs
      ensures Newer(Elems(f.run), Elems(g.run))
    {
      SmallestToLargest(f);
      SmallestToLargest(g);
    }
  }

  lemma WidenedIsUserClosed(files: seq<File>, r: Range)
    requires Bounded(files) && r.begin.Some? && r.end.Some?
    ensures UserClosed(files, OverlappingInputs(0, files, r))
  {
    WidenIsLeastClosed(files, r);
    var w := Widen(files, r);
    forall f | f in files ensures !Extends(f, w) {}
    WidenKeepsEnds(files, r);
  }

  lemma {:induction false} WidenKeepsEnds(files: seq<File>, r: Range)
    requires r.begin.Some? && r.end.Some?
    ensures Widen(files, r).begin.Some? && Widen(files, r).end.Some?
    decreases StartingBefore(files, r), EndingAfter(files, r)
  {
    var i := FirstExtender(files, r);
    if i < |files| {
      ExtendingShrinks(files, files[i], r);
      WidenKeepsEnds(files, Extended(files[i], r));
    }
  }

  lemma UserClosedHasNoBoundary(files: seq<File>, inputs: seq<File>)
    requires Bounded(files) && inputs != [] && (forall g :: g in inputs ==> g in files)
    requires UserClosed(files, inputs)
    ensures BoundaryFiles(files, LargestKey(inputs)) == []
  {
    var largest := LargestKey(inputs);
    var last :| last in inputs && last.largest == largest;
    forall f | f in files ensures !ContinuesKey(f, largest) {
      if f !in inputs {
        assert f.largest.user < last.smallest.user || last.largest.user < f.smallest.user;
      }
    }
  }

  // ------------------------------------------------------------------ no gaps

  ghost predicate Touches(b: File, files: seq<File>) {
    && (exists f :: f in files && f.smallest.user <= b.largest.user)
    && (exists g :: g in files && b.smallest.user <= g.largest.user)
  }

  lemma AddTouching(files: seq<File>, more: seq<File>, all: seq<File>)
    requires GapFree(files)
    requires forall b :: b in more ==> Touches(b, files)
    requires forall f :: f in all <==> f in files || f in more
    ensures GapFree(all)
  {
    forall f, g, x | f in all && g in all && f.smallest.user <= x <= g.largest.user
      ensures CoveredBy(all, x)
    {
      if !Covers(f, x) && !Covers(g, x) {
        var f' :| f' in files && f'.smallest.user <= x;
        var g' :| g' in files && x <= g'.largest.user;
        assert CoveredBy(files, x);
        var h :| h in files && Covers(h, x);
        assert h in all;
      }
    }
  }

  lemma {:induction false} BoundaryIsGapFree(files: seq<File>, largest: IKey, others: seq<File>, g: File)
    requires Bounded(files) && GapFree(others)
    requires g in others && g.largest == largest && !Less(g.largest, g.smallest)
    ensures GapFree(others + BoundaryFiles(files, largest))
    decreases FilesAfter(files, largest)
  {
    hide GapFree, FilesAfter;
    var b := SmallestBoundary(files, largest);
    if b.Some? {
      BoundaryAdvances(files, largest);
      assert Touches(b.value, others);
      AddTouching(others, [b.value], others + [b.value]);
      BoundaryIsGapFree(files, b.value.largest, others + [b.value], b.value);
      assert others + BoundaryFiles(files, largest) == others + [b.value] + BoundaryFiles(files, b.value.largest);
    } else {
      assert others + BoundaryFiles(files, largest) == others;
    }
  }

  /** The files touching the user range of a gap-free set do not open gaps. */
  lemma AddOverlapping(files: seq<File>, more: seq<File>, all: seq<File>)
    requires files != [] && GapFree(files)
    requires forall b :: b in more ==> Overlaps(b, UserRange(files))
    requires forall f :: f in all <==> f in files || f in more
    ensures GapFree(all)
  {
    forall b | b in more ensures Touches(b, files) {}
    AddTouching(files, more, all);
  }

  ghost predicate CoversRange(files: seq<File>, r: Range) {
    forall x :: r.begin.Some? && r.end.Some? && r.begin.value <= x <= r.end.value ==> CoveredBy(files, x)
  }

  lemma {:induction false} WidenStaysCovered(files: seq<File>, r: Range, all: seq<File>)
    requires Bounded(files) && CoversRange(all, r)
    requires forall f :: f in files ==> f in all
    ensures CoversRange(all, Widen(files, r))
    decreases StartingBefore(files, r), EndingAfter(files, r)
  {
    var i := FirstExtender(files, r);
    if i < |files| {
      ExtendingShrinks(files, files[i], r);
      var q := Extended(files[i], r);
      forall x | q.begin.Some? && q.end.Some? && q.begin.value <= x <= q.end.value
        ensures CoveredBy(all, x)
      {
        assert files[i] in files;
        if !Covers(files[i], x) {
          assert r.begin.Some? && r.end.Some? && r.begin.value <= x <= r.end.value;
        }
      }
      WidenStaysCovered(files, q, all);
    }
  }

  /** Level-0 selection: what covers the start range and the selected files leave no gap. */
  lemma WidenedIsGapFree(files: seq<File>, r: Range, others: seq<File>, all: seq<File>)
    requires Bounded(files) && r.begin.Some? && r.end.Some? && CoversRange(others, r)
    requires forall g :: g in others ==> r.begin.value <= g.smallest.user && g.largest.user <= r.end.value
    requires forall f :: f in all <==> f in others || f in OverlappingInputs(0, files, r)
    ensures GapFree(all)
  {
    var w := Widen(files, r);
    WidenKeepsEnds(files, r);
    WidenIsLeastClosed(files, r);
    forall x | r.begin.value <= x <= r.end.value
      ensures CoveredBy(files + others, x)
    {
      assert CoveredBy(others, x);
      var h :| h in others && Covers(h, x);
      assert h in files + others;
    }
    WidenStaysCovered(files, r, files + others);
    forall f | f in all
      ensures w.begin.value <= f.smallest.user && f.largest.user <= w.end.value
    {
      if f in files { assert !Extends(f, w); }
    }
    forall f, g, x | f in all && g in all && f.smallest.user <= x <= g.largest.user
      ensures CoveredBy(all, x)
    {
      assert w.begin.value <= x <= w.end.value;
      assert CoveredBy(files + others, x);
      var h :| h in files + others && Covers(h, x);
      assert h in all;
    }
  }

  lemma GapFreeCoversRange(files: seq<File>)
    requires files != [] && GapFree(files)
    ensures CoversRange(files, UserRange(files))
  {
    var lo, hi := SmallestKey(files), LargestKey(files);
    var f :| f in files && f.smallest == lo;
    var g :| g in files && g.largest == hi;
  }

  // ------------------------------------------------------------------ the order of the inputs

  lemma {:induction false} OverlappingKeepsOrder(files: seq<File>, r: Range)
    ensures Disjoint(files) ==> Disjoint(Overlapping(files, r))
    ensures DistinctNumbers(files) ==> DistinctNumbers(Overlapping(files, r))
  {
    if files != [] {
      hide Less;
      OverlappingKeepsOrder(files[1..], r);
      RestKeepsOrder(files);
      FirstKeepsOrder(files, Overlapping(files[1..], r));
    }
  }

  lemma RestKeepsOrder(files: seq<File>)
    requires files != []
    ensures Disjoint(files) ==> Disjoint(files[1..])
    ensures DistinctNumbers(files) ==> DistinctNumbers(files[1..])
  {
    hide Less;
  }

  /** The first file comes before any part of the others. */
  lemma FirstKeepsOrder(files: seq<File>, part: seq<File>)
    requires files != [] && forall f :: f in part ==> f in files[1..]
    ensures Disjoint(files) && Disjoint(part) ==> Disjoint([files[0]] + part)
    ensures DistinctNumbers(files) && DistinctNumbers(part) ==> DistinctNumbers([files[0]] + part)
  {
    hide Less;
    forall j | 0 <= j < |part| ensures exists k :: 0 < k < |files| && files[k] == part[j] {
      assert part[j] in part;
      var k :| 0 <= k < |files[1..]| && files[1..][k] == part[j];
      assert files[k + 1] == part[j];
    }
  }

  /** Boundary files are appended in key order. */
  lemma {:induction false} BoundaryKeepsOrder(files: seq<File>, inputs: seq<File>)
    requires Bounded(files) && Bounded(inputs) && inputs != [] && Disjoint(inputs)
    ensures Disjoint(inputs + BoundaryFiles(files, LargestKey(inputs)))
    decreases FilesAfter(files, LargestKey(inputs))
  {
    var largest := LargestKey(inputs);
    var b := SmallestBoundary(files, largest);
    if b.Some? {
      forall i | 0 <= i < |inputs| ensures Less(inputs[i].largest, b.value.smallest) {
        assert inputs[i] in inputs;
      }
      LargestKeyIs(inputs + [b.value], b.value);
      BoundaryUnfolds(files, inputs, inputs + BoundaryFiles(files, largest));
      BoundaryKeepsOrder(files, inputs + [b.value]);
    } else {
      assert inputs + BoundaryFiles(files, largest) == inputs;
    }
  }
}
