/** Choosing the input files of a compaction (db/version_set.cc). */
module Inputs {
  import opened Keys
  import opened Versions

  /** File bounds are in order; every well-formed file satisfies this. */
  ghost predicate Bounded(files: seq<File>) {
    forall f :: f in files ==> !Less(f.largest, f.smallest)
  }

  lemma FilesOkAreBounded(files: seq<File>)
    requires AllFilesOk(files)
    ensures Bounded(files)
  {
    forall f | f in files ensures !Less(f.largest, f.smallest) { SmallestToLargest(f); }
  }

  // ------------------------------------------------------------------ overlapping files

  /** A range of user keys; `None` stands for an open end. */
  datatype Range = Range(begin: Option<UserKey>, end: Option<UserKey>)

  predicate Overlaps(f: File, r: Range) {
    && !(r.begin.Some? && f.largest.user < r.begin.value)
    && !(r.end.Some? && f.smallest.user > r.end.value)
  }

  predicate StartsBefore(f: File, r: Range) {
    r.begin.Some? && f.smallest.user < r.begin.value
  }

  predicate EndsAfter(f: File, r: Range) {
    r.end.Some? && f.largest.user > r.end.value
  }

  predicate Extends(f: File, r: Range) {
    Overlaps(f, r) && (StartsBefore(f, r) || EndsAfter(f, r))
  }

  /** No file overlaps the range without lying inside it. */
  ghost predicate Closed(files: seq<File>, r: Range) {
    forall f :: f in files ==> !Extends(f, r)
  }

  ghost predicate Contains(outer: Range, inner: Range) {
    && (outer.begin.Some? ==> inner.begin.Some? && outer.begin.value <= inner.begin.value)
    && (outer.end.Some? ==> inner.end.Some? && inner.end.value <= outer.end.value)
  }

  function Overlapping(files: seq<File>, r: Range): (inputs: seq<File>)
    ensures forall f :: f in inputs <==> f in files && Overlaps(f, r)
  {
    if files == [] then [] else
    (if Overlaps(files[0], r) then [files[0]] else []) + Overlapping(files[1..], r)
  }

  function FirstExtender(files: seq<File>, r: Range): (i: nat)
    ensures i <= |files|
    ensures forall j :: 0 <= j < i ==> !Extends(files[j], r)
    ensures i < |files| ==> Extends(files[i], r)
  {
    if files == [] || Extends(files[0], r) then 0 else 1 + FirstExtender(files[1..], r)
  }

  function Extended(f: File, r: Range): Range {
    if StartsBefore(f, r) then r.(begin := Some(f.smallest.user)) else r.(end := Some(f.largest.user))
  }

  ghost function StartingBefore(files: seq<File>, r: Range): set<File> {
    set f | f in files && StartsBefore(f, r)
  }

  ghost function EndingAfter(files: seq<File>, r: Range): set<File> {
    set f | f in files && EndsAfter(f, r)
  }

  lemma ExtendingShrinks(files: seq<File>, f: File, r: Range)
    requires f in files && Extends(f, r)
    ensures StartsBefore(f, r) ==> StartingBefore(files, Extended(f, r)) < StartingBefore(files, r)
    ensures !StartsBefore(f, r) ==>
              && StartingBefore(files, Extended(f, r)) == StartingBefore(files, r)
              && EndingAfter(files, Extended(f, r)) < EndingAfter(files, r)
  {
    if StartsBefore(f, r) {
      assert f in StartingBefore(files, r);
    } else {
      assert f in EndingAfter(files, r);
    }
  }

  /** The range level-0 selection ends with: keep absorbing the first file that sticks out. */
  function Widen(files: seq<File>, r: Range): Range
    decreases StartingBefore(files, r), EndingAfter(files, r)
  {
    var i := FirstExtender(files, r);
    if i == |files| then r
    else
      ExtendingShrinks(files, files[i], r);
      Widen(files, Extended(files[i], r))
  }

  function OverlappingInputs(level: nat, files: seq<File>, r: Range): seq<File> {
    Overlapping(files, if level == 0 then Widen(files, r) else r)
  }

  /** The restart loop reaches the least range that is closed under overlap. */
  lemma {:induction false} WidenIsLeastClosed(files: seq<File>, r: Range)
    requires Bounded(files)
    ensures Closed(files, Widen(files, r)) && Contains(Widen(files, r), r)
    ensures forall q :: Closed(files, q) && Contains(q, r) ==> Contains(q, Widen(files, r))
    decreases StartingBefore(files, r), EndingAfter(files, r)
  {
    var i := FirstExtender(files, r);
    if i == |files| {
      forall f | f in files ensures !Extends(f, r) {
        var j :| 0 <= j < |files| && files[j] == f;
      }
    } else {
      assert files[i] in files;
      ExtendingShrinks(files, files[i], r);
      WidenIsLeastClosed(files, Extended(files[i], r));
      forall q | Closed(files, q) && Contains(q, r)
        ensures Contains(q, Extended(files[i], r))
      {
        assert !Extends(files[i], q);
      }
    }
  }

  lemma OverlappingStep(files: seq<File>, i: nat, r: Range, inputs: seq<File>)
    requires i < |files|
    requires inputs + Overlapping(files[i..], r) == Overlapping(files, r)
    ensures (if Overlaps(files[i], r) then inputs + [files[i]] else inputs) + Overlapping(files[i + 1..], r) ==
            Overlapping(files, r)
  {
    assert files[i..][1..] == files[i + 1..];
  }

  lemma RestartStep(files: seq<File>, i: nat, r: Range)
    requires i < |files| && i <= FirstExtender(files, r)
    ensures Extends(files[i], r) ==> Widen(files, r) == Widen(files, Extended(files[i], r))
    ensures !Extends(files[i], r) ==> i + 1 <= FirstExtender(files, r)
  {
  }

  lemma Finished(files: seq<File>, r: Range)
    ensures Overlapping(files[|files|..], r) == []
    ensures FirstExtender(files, r) == |files| ==> Widen(files, r) == r
  {
  }

  method GetOverlappingInputs(level: nat, files: seq<File>, range: Range) returns (inputs: seq<File>)
    ensures inputs == OverlappingInputs(level, files, range)
  {
    hide Widen, Overlapping, FirstExtender, StartingBefore, EndingAfter;
    var r := range;
    inputs := [];
    var i := 0;
    while i < |files|
      invariant 0 <= i <= |files|
      invariant level > 0 ==> r == range
      invariant level == 0 ==> Widen(files, r) == Widen(files, range) && i <= FirstExtender(files, r)
      invariant inputs + Overlapping(files[i..], r) == Overlapping(files, r)
      decreases StartingBefore(files, r), EndingAfter(files, r), |files| - i
    {
      var f := files[i];
      OverlappingStep(files, i, r, inputs);
      if level == 0 { RestartStep(files, i, r); }
      if Extends(f, r) { ExtendingShrinks(files, f, r); }
      i := i + 1;
      if r.begin.Some? && f.largest.user < r.begin.value {
        // completely before the range
      } else if r.end.Some? && f.smallest.user > r.end.value {
        // completely after the range
      } else {
        inputs := inputs + [f];
        if level == 0 {
          // Files of level 0 overlap: a wider range needs another pass over all of them.
          if r.begin.Some? && f.smallest.user < r.begin.value {
            r := r.(begin := Some(f.smallest.user));
            inputs, i := [], 0;
          } else if r.end.Some? && f.largest.user > r.end.value {
            r := r.(end := Some(f.largest.user));
            inputs, i := [], 0;
          }
        }
      }
    }
    Finished(files, r);
  }
}
