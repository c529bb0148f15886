/** SomeFileOverlapsRange and PickLevelForMemTableOutput (db/version_set.cc): the level a
    flushed memtable goes to.  */
module Flushing {
  import opened Keys
  import opened Versions
  import opened Inputs
  import opened Picking

  const MAX_MEM_COMPACT_LEVEL := 2

  ghost predicate AnyOverlap(files: seq<File>, r: Range) {
    exists f :: f in files && Overlaps(f, r)
  }

  lemma AtFoundFile(files: seq<File>, index: nat, r: Range)
    requires AllFilesOk(files) && Disjoint(files) && index <= |files|
    requires r.begin.Some? ==> forall i :: 0 <= i < index ==>
             Less(files[i].largest, IKey(r.begin.value, MAX_SEQUENCE, Value))
    requires r.begin.Some? ==> forall i :: index <= i < |files| ==>
             !Less(files[i].largest, IKey(r.begin.value, MAX_SEQUENCE, Value))
    requires r.begin.None? ==> index == 0
    requires forall f, e :: f in files && e in f.run ==> e.ik.seqno < MAX_SEQUENCE
    ensures AnyOverlap(files, r) <==> index < |files| && !(r.end.Some? && files[index].smallest.user > r.end.value)
  {
    forall i | 0 <= i < |files|
      ensures r.begin.Some? ==> (i < index <==> files[i].largest.user < r.begin.value)
      ensures i > index ==> files[i].smallest.user >= files[index].smallest.user
    {
      assert files[i] in files;
      SmallestToLargest(files[i]);
      var last := files[i].run[|files[i].run| - 1];
      assert last in files[i].run;
      if i > index {
        SmallestToLargest(files[index]);
      }
    }
    if AnyOverlap(files, r) {
      var f :| f in files && Overlaps(f, r);
      var i :| 0 <= i < |files| && files[i] == f;
      assert i >= index;
    } else if index < |files| {
      assert files[index] in files;
    }
  }

  method SomeFileOverlapsRange(disjoint: bool, files: seq<File>, r: Range) returns (overlap: bool)
    requires AllFilesOk(files) && (disjoint ==> Disjoint(files))
    requires forall f, e :: f in files && e in f.run ==> e.ik.seqno < MAX_SEQUENCE
    ensures overlap <==> AnyOverlap(files, r)
  {
    if !disjoint {
      for i := 0 to |files|
        invariant forall j :: 0 <= j < i ==> !Overlaps(files[j], r)
      {
        if (r.begin.Some? && r.begin.value > files[i].largest.user) ||
          (r.end.Some? && r.end.value < files[i].smallest.user) {
          // no overlap
        } else {
          assert files[i] in files && Overlaps(files[i], r);
          return true;
        }
      }
      return false;
    }
    var index := 0;
    if r.begin.Some? {
      // The earliest internal key for the smallest user key.
      index := FindFile(files, IKey(r.begin.value, MAX_SEQUENCE, Value));
    }
    AtFoundFile(files, index, r);
    if index >= |files| {
      return false;
    }
    overlap := !(r.end.Some? && r.end.value < files[index].smallest.user);
  }

  ghost function PickLevelFrom(maxFileSize: nat, v: seq<seq<File>>, r: Range, level: nat): nat
    requires |v| == NUM_LEVELS
    decreases MAX_MEM_COMPACT_LEVEL - level
  {
    if level >= MAX_MEM_COMPACT_LEVEL || AnyOverlap(v[level + 1], r) then level
    else if TotalFileSize(OverlappingInputs(level + 2, v[level + 2], r)) > 10 * maxFileSize then level
    else PickLevelFrom(maxFileSize, v, r, level + 1)
  }

  ghost function PickLevel(maxFileSize: nat, v: seq<seq<File>>, r: Range): nat
    requires |v| == NUM_LEVELS
  {
    if AnyOverlap(v[0], r) then 0 else PickLevelFrom(maxFileSize, v, r, 0)
  }

  /** A flushed file goes below level 0 only past levels that hold nothing in its range. */
  lemma {:induction false} PickLevelFromIsClear(maxFileSize: nat, v: seq<seq<File>>, r: Range, level: nat)
    requires |v| == NUM_LEVELS && level <= MAX_MEM_COMPACT_LEVEL
    ensures var l := PickLevelFrom(maxFileSize, v, r, level);
            level <= l <= MAX_MEM_COMPACT_LEVEL && forall k :: level < k <= l ==> !AnyOverlap(v[k], r)
    decreases MAX_MEM_COMPACT_LEVEL - level
  {
    if level < MAX_MEM_COMPACT_LEVEL {
      PickLevelFromIsClear(maxFileSize, v, r, level + 1);
    }
  }

  lemma PickLevelIsClear(maxFileSize: nat, v: seq<seq<File>>, r: Range)
    requires |v| == NUM_LEVELS
    ensures var l := PickLevel(maxFileSize, v, r);
            l <= MAX_MEM_COMPACT_LEVEL && (l > 0 ==> forall k :: 0 <= k <= l ==> !AnyOverlap(v[k], r))
  {
    PickLevelFromIsClear(maxFileSize, v, r, 0);
  }

  /** From level `k` a file of range `r` does not come to lie over more than ten file sizes two levels down. */
  ghost predicate LightBelow(maxFileSize: nat, v: seq<seq<File>>, r: Range, k: nat)
    requires |v| == NUM_LEVELS && k + 2 < NUM_LEVELS
  {
    TotalFileSize(OverlappingInputs(k + 2, v[k + 2], r)) <= 10 * maxFileSize
  }

  /** A file of range `r` may go to a level: nothing overlaps it there or above, and it is light on every level above.
      */
  ghost predicate MayGoTo(maxFileSize: nat, v: seq<seq<File>>, r: Range, level: nat)
    requires |v| == NUM_LEVELS && level + 1 < NUM_LEVELS
  {
    && (forall k :: 0 <= k <= level ==> !AnyOverlap(v[k], r))
    && (forall k: nat :: k < level ==> LightBelow(maxFileSize, v, r, k))
  }

  lemma {:induction false} PickLevelFromIs(maxFileSize: nat, v: seq<seq<File>>, r: Range, level: nat)
    requires |v| == NUM_LEVELS && level <= 2 && MayGoTo(maxFileSize, v, r, level)
    ensures var l := PickLevelFrom(maxFileSize, v, r, level);
            level <= l <= 2 && MayGoTo(maxFileSize, v, r, l) && (l < 2 ==> !MayGoTo(maxFileSize, v, r, l + 1))
    decreases 2 - level
  {
    hide AnyOverlap, OverlappingInputs, TotalFileSize;
    if level < 2 {
      if MayGoTo(maxFileSize, v, r, level + 1) {
        assert LightBelow(maxFileSize, v, r, level);
        PickLevelFromIs(maxFileSize, v, r, level + 1);
      } else if !AnyOverlap(v[level + 1], r) {
        var k: nat :| k < level + 1 && !LightBelow(maxFileSize, v, r, k);
        assert k == level;
      }
    }
  }

  /** The level picked is the deepest down to level 2 that the file may go to, one after another; level 0 if none. */
  lemma PickLevelIsDeepest(maxFileSize: nat, v: seq<seq<File>>, r: Range)
    requires |v| == NUM_LEVELS
    ensures var l := PickLevel(maxFileSize, v, r);
            && l <= 2 && (MayGoTo(maxFileSize, v, r, l) || (l == 0 && AnyOverlap(v[0], r)))
            && (l < 2 ==> !MayGoTo(maxFileSize, v, r, l + 1))
  {
    hide AnyOverlap, OverlappingInputs, TotalFileSize;
    if !AnyOverlap(v[0], r) { PickLevelFromIs(maxFileSize, v, r, 0); }
  }

  method PickLevelForMemTableOutput(maxFileSize: nat, v: seq<seq<File>>, smallest: UserKey, largest: UserKey)
    returns (level: nat)
    requires VersionOk(v)
    requires forall l, f, e :: 0 <= l < |v| && f in v[l] && e in f.run ==> e.ik.seqno < MAX_SEQUENCE
    ensures level == PickLevel(maxFileSize, v, Range(Some(smallest), Some(largest)))
  {
    var r := Range(Some(smallest), Some(largest));
    level := 0;
    var overlap := SomeFileOverlapsRange(false, v[0], r);
    if !overlap {
      while level < MAX_MEM_COMPACT_LEVEL
        invariant 0 <= level <= MAX_MEM_COMPACT_LEVEL
        invariant PickLevelFrom(maxFileSize, v, r, level) == PickLevelFrom(maxFileSize, v, r, 0)
      {
        overlap := SomeFileOverlapsRange(true, v[level + 1], r);
        if overlap {
          break;
        }
        if level + 2 < NUM_LEVELS {
          var overlaps := GetOverlappingInputs(level + 2, v[level + 2], r);
          var sum := SumFileSizes(overlaps);
          if sum > 10 * maxFileSize {
            break;
          }
        }
        level := level + 1;
      }
    }
  }
}
