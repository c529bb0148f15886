/** MergingIterator (table/merger.cc): a cursor over the sorted merge of its children. */
module Merger {
  import opened Keys
  import opened Merging
  import opened Iterators

  // ------------------------------------------------------------------ positions of a cursor in the children

  /** How many entries of `run` lie before entry `c` of the merge `m`. */
  function PosFor(run: Run, m: Run, c: nat): (n: nat)
    requires c <= |m|
    ensures n <= |run|
  {
    if c == |m| then |run| else LowerBound(run, m[c].ik)
  }

  /** `run` is one of the merged runs: sorted, and each of its entries occurs in the merge. */
  ghost predicate PartOf(run: Run, m: Run) {
    Sorted(run) && Sorted(m) && forall e :: e in run ==> e in m
  }

  lemma IndexIn(r: Run, e: Entry) returns (i: nat)
    requires Sorted(r) && e in r
    ensures i < |r| && r[i] == e && LowerBound(r, e.ik) == i
  {
    i :| 0 <= i < |r| && r[i] == e;
    LowerBoundIs(r, e.ik, i);
  }

  /** Stepping the cursor steps exactly the child that holds the current entry. */
  lemma PosForStep(run: Run, m: Run, c: nat)
    requires PartOf(run, m) && c < |m|
    requires forall e :: e in run && e.ik == m[c].ik ==> e == m[c]
    ensures PosFor(run, m, c + 1) == PosFor(run, m, c) + if m[c] in run then 1 else 0
    ensures m[c] in run ==> PosFor(run, m, c) < |run| && run[PosFor(run, m, c)] == m[c]
    ensures m[c] !in run ==> PosFor(run, m, c) < |run| ==> Less(m[c].ik, run[PosFor(run, m, c)].ik)
  {
    var n := PosFor(run, m, c);
    if m[c] in run {
      var i := IndexIn(run, m[c]);
      if c + 1 < |m| {
        assert Less(m[c].ik, m[c + 1].ik);
        if i + 1 < |run| { NothingBetween(run, m, c, i + 1); }
        LowerBoundIs(run, m[c + 1].ik, i + 1);
      } else if i + 1 < |run| {
        NothingBetween(run, m, c, i + 1);
      }
    } else if n < |run| {
      LessComparesTrailers(m[c].ik, run[n].ik);
      assert run[n] in run;
      NothingBetween(run, m, c, n);
      if c + 1 < |m| {
        assert Less(m[c].ik, m[c + 1].ik);
        LowerBoundIs(run, m[c + 1].ik, n);
      }
    } else if c + 1 < |m| {
      assert Less(m[c].ik, m[c + 1].ik);
      LowerBoundIs(run, m[c + 1].ik, n);
    }
  }

  lemma NothingBetween(run: Run, m: Run, c: nat, i: nat)
    requires PartOf(run, m) && c < |m| && i < |run| && Less(m[c].ik, run[i].ik)
    ensures c + 1 < |m| && !Less(run[i].ik, m[c + 1].ik)
  {
    assert run[i] in run;
    var j := IndexIn(m, run[i]);
    assert j > c;
    if j > c + 1 { assert Less(m[c + 1].ik, m[j].ik); }
  }

  lemma SeekPos(run: Run, m: Run, target: IKey)
    requires PartOf(run, m)
    ensures PosFor(run, m, LowerBound(m, target)) == LowerBound(run, target)
  {
    var c, n := LowerBound(m, target), LowerBound(run, target);
    if n < |run| {
      assert run[n] in run;
      var j := IndexIn(m, run[n]);
      assert j >= c;
      if j > c { assert Less(m[c].ik, m[j].ik); }
    }
    if c < |m| {
      LowerBoundIs(run, m[c].ik, n);
    }
  }

  // ------------------------------------------------------------------ the children of a merge

  ghost predicate Mergeable(runs: seq<Run>) {
    AllSorted(runs) && DistinctKeys(runs)
  }

  lemma PartsOfMerge(runs: seq<Run>)
    requires Mergeable(runs)
    ensures Sorted(Merge(runs))
    ensures forall i :: 0 <= i < |runs| ==> PartOf(runs[i], Merge(runs))
  {
    MergeSorts(runs);
    forall i, e | 0 <= i < |runs| && e in runs[i] ensures e in Merge(runs) {
      MergeHolds(runs, e);
    }
  }

  /** Every entry of the merge lies in exactly one of the runs. */
  lemma HolderOf(runs: seq<Run>, c: nat) returns (h: nat)
    requires Mergeable(runs) && c < |Merge(runs)|
    ensures h < |runs| && Merge(runs)[c] in runs[h]
    ensures forall i, e :: 0 <= i < |runs| && e in runs[i] && e.ik == Merge(runs)[c].ik ==>
            i == h && e == Merge(runs)[c]
  {
    var e := Merge(runs)[c];
    MergeHolds(runs, e);
    h :| 0 <= h < |runs| && e in runs[h];
    forall i, x | 0 <= i < |runs| && x in runs[i] && x.ik == e.ik ensures i == h && x == e {
      var j := IndexIn(runs[h], e);
      var k := IndexIn(runs[i], x);
    }
  }

  /** With every child at the position of cursor `c`, the child with the least key holds entry `c`. */
  lemma LeastChild(runs: seq<Run>, c: nat, h: nat)
    requires Mergeable(runs) && c < |Merge(runs)| && h < |runs|
    requires PosFor(runs[h], Merge(runs), c) < |runs[h]|
    requires forall i :: 0 <= i < |runs| && PosFor(runs[i], Merge(runs), c) < |runs[i]| ==>
               !Less(runs[i][PosFor(runs[i], Merge(runs), c)].ik, runs[h][PosFor(runs[h], Merge(runs), c)].ik)
    ensures runs[h][PosFor(runs[h], Merge(runs), c)] == Merge(runs)[c]
  {
    var m := Merge(runs);
    PartsOfMerge(runs);
    var k := HolderOf(runs, c);
    PosForStep(runs[k], m, c);
    PosForStep(runs[h], m, c);
  }

  /** With every child stepped back from cursor `n`, the child with the greatest key holds entry `n - 1`. */
  lemma GreatestChild(runs: seq<Run>, n: nat, h: nat)
    requires Mergeable(runs) && 0 < n <= |Merge(runs)| && h < |runs|
    requires PosFor(runs[h], Merge(runs), n) > 0
    requires forall i :: 0 <= i < |runs| && PosFor(runs[i], Merge(runs), n) > 0 ==>
               !Less(runs[h][PosFor(runs[h], Merge(runs), n) - 1].ik, runs[i][PosFor(runs[i], Merge(runs), n) - 1].ik)
    ensures runs[h][PosFor(runs[h], Merge(runs), n) - 1] == Merge(runs)[n - 1]
  {
    hide Mergeable, Merge, PartOf;
    var m := Merge(runs);
    PartsOfMerge(runs);
    var k := HolderOf(runs, n - 1);
    PosForStep(runs[k], m, n - 1);
    PosForStep(runs[h], m, n - 1);
  }

  /** The run holding entry `c` moves with the cursor; no other run holds an entry with its key. */
  lemma OthersSkip(runs: seq<Run>, c: nat, cur: nat, i: nat)
    requires Mergeable(runs) && c < |Merge(runs)| && cur < |runs| && Merge(runs)[c] in runs[cur] && i < |runs|
    ensures var m, run := Merge(runs), runs[i];
            && PosFor(run, m, c) == LowerBound(run, m[c].ik)
            && PosFor(run, m, c + 1) == PosFor(run, m, c) + (if i == cur then 1 else 0)
            && (i == cur ==> PosFor(run, m, c) < |run| && run[PosFor(run, m, c)] == m[c])
            && (i != cur && PosFor(run, m, c) < |run| ==> run[PosFor(run, m, c)].ik != m[c].ik)
  {
    hide Mergeable, Merge, PartOf;
    PartsOfMerge(runs);
    var h := HolderOf(runs, c);
    var e := Merge(runs)[c];
    assert e in runs[cur] && e.ik == Merge(runs)[c].ik;
    PosForStep(runs[i], Merge(runs), c);
  }

  /** No child is valid exactly when the cursor is past the end (or before the start). */
  lemma SomeChildValid(runs: seq<Run>, c: nat)
    requires Mergeable(runs) && c <= |Merge(runs)|
    ensures (exists i :: 0 <= i < |runs| && PosFor(runs[i], Merge(runs), c) < |runs[i]|) <==> c < |Merge(runs)|
    ensures (exists i :: 0 <= i < |runs| && PosFor(runs[i], Merge(runs), c) > 0) <==> c > 0
  {
    PartsOfMerge(runs);
    var m := Merge(runs);
    hide Merge, Mergeable, PosFor, PartOf;
    if c < |m| {
      HolderStands(runs, c);
    } else {
      forall i | 0 <= i < |runs| ensures PosFor(runs[i], m, c) == |runs[i]| { AllBeforeEnd(runs[i], m); }
    }
    if c > 0 {
      HolderStands(runs, c - 1);
    } else {
      forall i | 0 <= i < |runs| ensures PosFor(runs[i], m, 0) == 0 { NothingBeforeFirst(runs[i], m); }
    }
  }

  /** The run that holds entry `c` stands at it, and past it when the cursor is. */
  lemma HolderStands(runs: seq<Run>, c: nat)
    requires Mergeable(runs) && c < |Merge(runs)|
    ensures exists i :: 0 <= i < |runs| && PosFor(runs[i], Merge(runs), c) < |runs[i]|
    ensures exists i :: 0 <= i < |runs| && PosFor(runs[i], Merge(runs), c + 1) > 0
  {
    PartsOfMerge(runs);
    hide Merge, Mergeable, PosFor, PartOf;
    var h := HolderOf(runs, c);
    PosForStep(runs[h], Merge(runs), c);
  }

  lemma AllBeforeEnd(run: Run, m: Run)
    ensures PosFor(run, m, |m|) == |run|
  {
  }

  lemma NothingBeforeFirst(run: Run, m: Run)
    requires Sorted(m) && PartOf(run, m)
    ensures PosFor(run, m, 0) == 0
  {
    if run != [] {
      assert run[0] in run;
      var j := IndexIn(m, run[0]);
      if j > 0 { assert Less(m[0].ik, m[j].ik); }
    }
  }

  // ------------------------------------------------------------------ the class

  /** Position a child at its first entry at or above `key`, and past one with that very key. */
  method SeekPast(child: IteratorWrapper, key: IKey)
    requires child.Valid()
    modifies child, child.iter
    ensures child.Valid()
    ensures var run := child.iter.run; var n := LowerBound(run, key);
            child.iter.pos == if n < |run| && run[n].ik == key then n + 1 else n
  {
    child.Seek(key);
    if child.valid && child.key == key {
      child.Next();
    }
  }

  /** Position a child at its last entry below `key`. */
  method SeekBefore(child: IteratorWrapper, key: IKey)
    requires child.Valid()
    modifies child, child.iter
    ensures child.Valid() && child.iter.pos == Back(child.iter.run, LowerBound(child.iter.run, key))
  {
    child.Seek(key);
    if child.valid {
      // The child is at its first entry at or above the key: step back one.
      child.Prev();
    } else {
      // The child has no entry at or above the key.
      child.SeekToLast();
    }
  }

  class MergingIterator {
    const children: seq<IteratorWrapper>
    var current: Option<nat>
    var direction: Direction
    ghost var cursor: nat

    ghost function Runs(): seq<Run> {
      seq(|children|, i requires 0 <= i < |children| => children[i].iter.run)
    }

    ghost function Contents(): Run {
      Merge(Runs())
    }

    ghost function Repr(): set<object> {
      (set c: IteratorWrapper | c in children :: c as object) +
        (set c: IteratorWrapper | c in children :: c.iter as object)
    }

    /** No two children share state, and the merged runs share no key. */
    ghost predicate Separate() {
      && (forall i, j :: 0 <= i < j < |children| ==> children[i] != children[j] && children[i].iter != children[j].iter)
      && Mergeable(Runs())
    }

    ghost predicate ChildrenValid()
      reads Repr()
    {
      forall c :: c in children ==> c.Valid()
    }

    /** Every child but the ones in `except` stands at its position for cursor `c`. */
    ghost predicate AllAt(c: nat)
      reads Repr()
    {
      c <= |Contents()| && forall i :: 0 <= i < |children| ==> children[i].iter.pos == PosFor(Runs()[i], Contents(), c)
    }

    /** Every child stands one step before its position for cursor `c`. */
    ghost predicate AllBefore(c: nat)
      reads Repr()
    {
      c <= |Contents()| &&
      forall i :: 0 <= i < |children| ==> children[i].iter.pos == Back(Runs()[i], PosFor(Runs()[i], Contents(), c))
    }

    ghost predicate Valid()
      reads this, Repr()
    {
      && Separate() && ChildrenValid()
      && (current.Some? ==>
            && current.value < |children| && cursor < |Contents()|
            && (if direction.Forward? then AllAt(cursor) else AllBefore(cursor + 1))
            && children[current.value].valid
            && children[current.value].iter.run[children[current.value].iter.pos] == Contents()[cursor])
    }

    ghost function Cursor(): Option<nat>
      reads this
    {
      if current.Some? then Some(cursor) else None
    }

    ghost predicate IsLeast(r: Option<nat>)
      reads Repr()
    {
      match r
      case None => forall c :: c in children ==> !c.valid
      case Some(h) => h < |children| && children[h] in children && children[h].valid && forall c ::
        c in children && c.valid ==> !Less(c.key, children[h].key)
    }

    ghost predicate IsGreatest(r: Option<nat>)
      reads Repr()
    {
      match r
      case None => forall c :: c in children ==> !c.valid
      case Some(h) => h < |children| && children[h] in children && children[h].valid && forall c ::
        c in children && c.valid ==> !Less(children[h].key, c.key)
    }

    method SmallestChild() returns (smallest: Option<nat>)
      ensures IsLeast(smallest)
    {
      smallest := None;
      for i := 0 to |children|
        invariant smallest.Some? ==> smallest.value < i && children[smallest.value].valid
        invariant forall j :: 0 <= j < i && children[j].valid ==>
                    smallest.Some? && !Less(children[j].key, children[smallest.value].key)
      {
        var child := children[i];
        if child.valid {
          if smallest.None? || Less(child.key, children[smallest.value].key) {
            smallest := Some(i);
          }
        }
      }
    }

    method LargestChild() returns (largest: Option<nat>)
      ensures IsGreatest(largest)
    {
      largest := None;
      for i := |children| downto 0
        invariant largest.Some? ==> i <= largest.value < |children| && children[largest.value].valid
        invariant forall j :: i <= j < |children| && children[j].valid ==>
                    largest.Some? && !Less(children[largest.value].key, children[j].key)
      {
        var child := children[i];
        if child.valid {
          if largest.None? || Less(children[largest.value].key, child.key) {
            largest := Some(i);
          }
        }
      }
    }

    lemma LeastIsNext(c: nat, r: Option<nat>)
      requires Separate() && ChildrenValid() && AllAt(c) && IsLeast(r)
      ensures r.Some? <==> c < |Contents()|
      ensures r.Some? ==> children[r.value].iter.run[children[r.value].iter.pos] == Contents()[c]
    {
      hide Mergeable, Merge, PosFor, PartOf, LowerBound, Less;
      var runs := Runs();
      SomeChildValid(runs, c);
      forall i | 0 <= i < |children|
        ensures children[i].valid <==> PosFor(runs[i], Contents(), c) < |runs[i]|
        ensures children[i].valid ==> children[i].key == runs[i][PosFor(runs[i], Contents(), c)].ik
      {
        assert children[i] in children;
      }
      if r.Some? {
        LeastChild(runs, c, r.value);
      }
    }

    lemma GreatestIsPrev(n: nat, r: Option<nat>)
      requires Separate() && ChildrenValid() && AllBefore(n) && IsGreatest(r)
      ensures r.Some? <==> n > 0
      ensures r.Some? ==> children[r.value].iter.run[children[r.value].iter.pos] == Contents()[n - 1]
    {
      hide Mergeable, Merge, PosFor, PartOf, LowerBound, Less;
      var runs := Runs();
      SomeChildValid(runs, n);
      forall i | 0 <= i < |children|
        ensures children[i].valid <==> PosFor(runs[i], Contents(), n) > 0
        ensures children[i].valid ==> children[i].key == runs[i][PosFor(runs[i], Contents(), n) - 1].ik
      {
        assert children[i] in children;
      }
      if r.Some? {
        GreatestChild(runs, n, r.value);
      }
    }

    method FindSmallest(ghost c: nat)
      requires Separate() && ChildrenValid() && AllAt(c) && direction.Forward?
      modifies this`current, this`cursor
      ensures Valid() && Cursor() == if c < |Contents()| then Some(c) else None
    {
      hide Mergeable, Merge, PosFor, Back;
      var smallest := SmallestChild();
      LeastIsNext(c, smallest);
      current, cursor := smallest, c;
    }

    method FindLargest(ghost n: nat)
      requires Separate() && ChildrenValid() && AllBefore(n) && direction.Reverse?
      modifies this`current, this`cursor
      ensures Valid() && Cursor() == if n > 0 then Some(n - 1) else None
    {
      hide Mergeable, Merge, PosFor, Back;
      var largest := LargestChild();
      GreatestIsPrev(n, largest);
      current, cursor := largest, if n > 0 then n - 1 else 0;
    }

    constructor (children: seq<IteratorWrapper>)
      requires forall i, j :: 0 <= i < j < |children| ==>
               children[i] != children[j] && children[i].iter != children[j].iter
      requires forall c :: c in children ==> c.Valid()
      requires Mergeable(seq(|children|, i requires 0 <= i < |children| => children[i].iter.run))
      ensures Valid() && Cursor() == None && this.children == children
    {
      this.children := children;
      current, direction, cursor := None, Forward, 0;
    }

    // ---------------------------------------------------------------- moving all children

    lemma AtStart()
      requires Separate() && forall i :: 0 <= i < |children| ==> children[i].iter.pos == 0
      ensures AllAt(0)
    {
      SomeChildValid(Runs(), 0);
    }

    lemma AtEnd()
      requires Separate() && forall i :: 0 <= i < |children| ==>
               children[i].iter.pos == Back(children[i].iter.run, |children[i].iter.run|)
      ensures AllBefore(|Contents()|)
    {
    }

    lemma AtTarget(target: IKey)
      requires Separate() && forall i :: 0 <= i < |children| ==>
               children[i].iter.pos == LowerBound(children[i].iter.run, target)
      ensures AllAt(LowerBound(Contents(), target))
    {
      PartsOfMerge(Runs());
      forall i | 0 <= i < |children|
        ensures children[i].iter.pos == PosFor(Runs()[i], Contents(), LowerBound(Contents(), target))
      {
        SeekPos(Runs()[i], Contents(), target);
      }
    }

    method SeekToFirst()
      requires Valid()
      modifies this`current, this`cursor, this`direction, Repr()
      ensures Valid() && Cursor() == if Contents() == [] then None else Some(0)
    {
      for i := 0 to |children|
        invariant Separate()
        invariant forall j :: 0 <= j < i ==> children[j].Valid() && children[j].iter.pos == 0
      {
        assert children[i] in children;
        children[i].SeekToFirst();
      }
      direction := Forward;
      AtStart();
      FindSmallest(0);
    }

    method SeekToLast()
      requires Valid()
      modifies this`current, this`cursor, this`direction, Repr()
      ensures Valid() && Cursor() == if Contents() == [] then None else Some(|Contents()| - 1)
    {
      for i := 0 to |children|
        invariant Separate()
        invariant forall j :: 0 <= j < i ==>
                  children[j].Valid() && children[j].iter.pos == Back(children[j].iter.run, |children[j].iter.run|)
      {
        assert children[i] in children;
        children[i].SeekToLast();
      }
      direction := Reverse;
      AtEnd();
      FindLargest(|Contents()|);
    }

    method Seek(target: IKey)
      requires Valid()
      modifies this`current, this`cursor, this`direction, Repr()
      ensures Valid()
      ensures Cursor() == var c := LowerBound(Contents(), target); if c < |Contents()| then Some(c) else None
    {
      for i := 0 to |children|
        invariant Separate()
        invariant forall j :: 0 <= j < i ==>
                  children[j].Valid() && children[j].iter.pos == LowerBound(children[j].iter.run, target)
      {
        assert children[i] in children;
        children[i].Seek(target);
      }
      direction := Forward;
      AtTarget(target);
      FindSmallest(LowerBound(Contents(), target));
    }

    // ---------------------------------------------------------------- changing direction and stepping

    lemma Current()
      requires Valid() && current.Some?
      ensures Contents()[cursor] in Runs()[current.value]
      ensures children[current.value].Valid() && children[current.value].key == Contents()[cursor].ik
    {
      hide Mergeable, Merge, PosFor, Back;
      assert children[current.value] in children;
      assert Runs()[current.value] == children[current.value].iter.run;
    }

    /** Every child but `cur` stands at its position for cursor `c`. */
    ghost predicate OthersAt(cur: nat, c: nat)
      reads Repr()
    {
      c <= |Contents()| &&
      forall i :: 0 <= i < |children| && i != cur ==> children[i].iter.pos == PosFor(Runs()[i], Contents(), c)
    }

    /** Every child but `cur` stands one step before its position for cursor `c`. */
    ghost predicate OthersBefore(cur: nat, c: nat)
      reads Repr()
    {
      c <= |Contents()| &&
      forall i :: 0 <= i < |children| && i != cur ==>
        children[i].iter.pos == Back(Runs()[i], PosFor(Runs()[i], Contents(), c))
    }

    /** The current child is at its entry in both directions; the others are a step apart. */
    lemma Standing()
      requires Valid() && current.Some?
      ensures var cur, run := current.value, Runs()[current.value];
              && children[cur] in children && children[cur].valid
              && children[cur].iter.pos == PosFor(run, Contents(), cursor)
              && PosFor(run, Contents(), cursor + 1) == PosFor(run, Contents(), cursor) + 1
              && (if direction.Forward? then OthersAt(cur, cursor + 1) else OthersBefore(cur, cursor))
    {
      hide Mergeable, Merge, PosFor;
      Current();
      forall i | 0 <= i < |children|
        ensures PosFor(Runs()[i], Contents(), cursor + 1) ==
                PosFor(Runs()[i], Contents(), cursor) + (if i == current.value then 1 else 0)
      {
        OthersSkip(Runs(), cursor, current.value, i);
      }
      if direction.Forward? {
        assert OthersAt(current.value, cursor + 1);
      } else {
        assert OthersBefore(current.value, cursor);
      }
    }

    /** Position every child but the current one at its first entry at or above the current key. */
    method SeekOthersForward()
      requires Valid() && current.Some?
      modifies Repr()
      ensures Separate() && ChildrenValid() && OthersAt(current.value, cursor + 1)
      ensures var child := children[current.value];
              child.valid && child.iter.pos == PosFor(Runs()[current.value], Contents(), cursor)
    {
      hide Mergeable, Merge, PosFor, PartOf, Less, LowerBound, Back, MergingIterator.OthersBefore,
           MergingIterator.AllAt, MergingIterator.AllBefore;
      var cur := current.value;
      ghost var c := cursor;
      Standing();
      Current();
      var key := children[cur].key;
      for i := 0 to |children|
        invariant Separate() && ChildrenValid()
        invariant children[cur].valid && children[cur].key == key
        invariant children[cur].iter.pos == old(children[cur].iter.pos)
        invariant forall j :: 0 <= j < i && j != cur ==> children[j].iter.pos == PosFor(Runs()[j], Contents(), c + 1)
      {
        if i != cur {
          SkipPast(i, cur, c, key);
        }
      }
      assert OthersAt(cur, c + 1);
    }

    /** Position one child at its first entry above the current key. */
    method SkipPast(i: nat, ghost cur: nat, ghost c: nat, key: IKey)
      requires Separate() && ChildrenValid() && i < |children| && cur < |children| && i != cur
      requires Mergeable(Runs()) && c < |Contents()| && Contents()[c] in Runs()[cur] && key == Contents()[c].ik
      modifies children[i], children[i].iter
      ensures Separate() && ChildrenValid() && children[i].iter.pos == PosFor(Runs()[i], Contents(), c + 1)
      ensures forall j :: 0 <= j < |children| && j != i ==>
                children[j].iter.pos == old(children[j].iter.pos) && children[j].valid == old(children[j].valid) &&
                  children[j].key == old(children[j].key)
    {
      hide Mergeable, Merge, PosFor, Less, LowerBound;
      var child := children[i];
      assert child in children;
      OthersSkip(Runs(), c, cur, i);
      SeekPast(child, key);
    }

    /** Position every child but the current one at its last entry below the current key. */
    method SeekOthersBackward()
      requires Valid() && current.Some?
      modifies Repr()
      ensures Separate() && ChildrenValid() && OthersBefore(current.value, cursor)
      ensures var child := children[current.value];
              child.valid && child.iter.pos == PosFor(Runs()[current.value], Contents(), cursor)
    {
      hide Mergeable, Merge, PosFor, PartOf, Less, LowerBound, Back, MergingIterator.OthersAt, MergingIterator.AllAt,
           MergingIterator.AllBefore;
      var cur := current.value;
      ghost var c := cursor;
      Standing();
      Current();
      var key := children[cur].key;
      for i := 0 to |children|
        invariant Separate() && ChildrenValid()
        invariant children[cur].valid && children[cur].key == key
        invariant children[cur].iter.pos == old(children[cur].iter.pos)
        invariant forall j :: 0 <= j < i && j != cur ==>
                  children[j].iter.pos == Back(Runs()[j], PosFor(Runs()[j], Contents(), c))
      {
        if i != cur {
          var child := children[i];
          assert child in children;
          OthersSkip(Runs(), c, cur, i);
          SeekBefore(child, key);
        }
      }
      assert OthersBefore(cur, c);
    }

    /** Stepping the current child too puts every child at its position for the next entry. */
    lemma AllStepped(cur: nat, c: nat)
      requires cur < |children| && OthersAt(cur, c + 1) && c < |Contents()|
      requires children[cur].iter.pos == PosFor(Runs()[cur], Contents(), c + 1)
      ensures AllAt(c + 1)
    {
    }

    lemma AllSteppedBack(cur: nat, c: nat)
      requires cur < |children| && OthersBefore(cur, c) && c < |Contents()|
      requires children[cur].iter.pos == Back(Runs()[cur], PosFor(Runs()[cur], Contents(), c))
      ensures AllBefore(c)
    {
    }

    /** Step the current child, so that every child stands at its position for the next entry. */
    method StepCurrent(cur: nat, ghost c: nat)
      requires Separate() && ChildrenValid() && cur < |children| && OthersAt(cur, c + 1) && children[cur].valid
      requires c < |Contents()| && children[cur].iter.pos == PosFor(Runs()[cur], Contents(), c)
      requires PosFor(Runs()[cur], Contents(), c + 1) == PosFor(Runs()[cur], Contents(), c) + 1
      modifies Repr()
      ensures Separate() && ChildrenValid() && AllAt(c + 1)
    {
      hide Mergeable, Merge, PosFor, Less, LowerBound, MergingIterator.AllAt;
      assert children[cur] in children;
      children[cur].Next();
      AllStepped(cur, c);
    }

    method Next()
      requires Valid() && current.Some?
      modifies this`current, this`cursor, this`direction, Repr()
      ensures Valid()
      ensures Cursor() == if old(cursor) + 1 < |Contents()| then Some(old(cursor) + 1) else None
    {
      hide Mergeable, Merge, PosFor, PartOf, Less, LowerBound, Back, MergingIterator.OthersAt,
           MergingIterator.OthersBefore, MergingIterator.AllAt, MergingIterator.AllBefore;
      var cur := current.value;
      ghost var c := cursor;
      Standing();
      if direction.Reverse? {
        SeekOthersForward();
        direction := Forward;
      }
      StepCurrent(cur, c);
      FindSmallest(c + 1);
    }

    method Prev()
      requires Valid() && current.Some?
      modifies this`current, this`cursor, this`direction, Repr()
      ensures Valid()
      ensures Cursor() == if old(cursor) > 0 then Some(old(cursor) - 1) else None
    {
      hide Mergeable, Merge, PosFor, PartOf, Less, LowerBound, MergingIterator.AllAt, MergingIterator.AllBefore;
      var cur := current.value;
      ghost var c := cursor;
      Standing();
      if direction.Forward? {
        SeekOthersBackward();
        direction := Reverse;
      }
      children[cur].Prev();
      AllSteppedBack(cur, c);
      FindLargest(c);
    }
  }
}
