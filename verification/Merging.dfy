/** The sorted merge of several runs: what a merging iterator over them ranges over. */
module Merging {
  import opened Keys

  function Merge2(a: Run, b: Run): (m: Run)
    ensures |m| == |a| + |b|
    ensures forall e :: e in m <==> e in a || e in b
  {
    if a == [] then b
    else if b == [] then a
    else if Less(b[0].ik, a[0].ik) then
      assert b == [b[0]] + b[1..];
      [b[0]] + Merge2(a, b[1..])
    else
      assert a == [a[0]] + a[1..];
      [a[0]] + Merge2(a[1..], b)
  }

  function Merge(runs: seq<Run>): Run {
    if runs == [] then [] else Merge2(runs[0], Merge(runs[1..]))
  }

  ghost predicate DisjointKeys(a: Run, b: Run) {
    forall x, y :: x in a && y in b ==> x.ik != y.ik
  }

  ghost predicate AllSorted(runs: seq<Run>) {
    forall i :: 0 <= i < |runs| ==> Sorted(runs[i])
  }

  /** No internal key occurs in two of the runs. */
  ghost predicate DistinctKeys(runs: seq<Run>) {
    forall i, j :: 0 <= i < j < |runs| ==> DisjointKeys(runs[i], runs[j])
  }

  predicate InSomeRun(runs: seq<Run>, e: Entry) {
    exists i :: 0 <= i < |runs| && e in runs[i]
  }

  lemma PrependSorts(e: Entry, r: Run)
    requires Sorted(r) && forall x :: x in r ==> Less(e.ik, x.ik)
    ensures Sorted([e] + r)
  {
  }

  lemma {:induction false} Merge2Sorts(a: Run, b: Run)
    requires Sorted(a) && Sorted(b) && DisjointKeys(a, b)
    ensures Sorted(Merge2(a, b))
  {
    if a != [] && b != [] {
      LessComparesTrailers(a[0].ik, b[0].ik);
      assert a[0] in a && b[0] in b;
      if Less(b[0].ik, a[0].ik) {
        Merge2Sorts(a, b[1..]);
        HeadIsLeast(b);
        HeadIsLeast(a);
        PrependSorts(b[0], Merge2(a, b[1..]));
      } else {
        Merge2Sorts(a[1..], b);
        HeadIsLeast(a);
        HeadIsLeast(b);
        PrependSorts(a[0], Merge2(a[1..], b));
      }
    }
  }

  lemma HeadIsLeast(r: Run)
    requires r != [] && Sorted(r)
    ensures forall x :: x in r ==> x == r[0] || Less(r[0].ik, x.ik)
    ensures forall x :: x in r[1..] ==> Less(r[0].ik, x.ik)
  {
  }

  lemma {:induction false} MergeHolds(runs: seq<Run>, e: Entry)
    ensures e in Merge(runs) <==> InSomeRun(runs, e)
  {
    if runs != [] {
      MergeHolds(runs[1..], e);
      if e in Merge(runs[1..]) {
        var i :| 0 <= i < |runs[1..]| && e in runs[1..][i];
        assert e in runs[i + 1];
      }
      if InSomeRun(runs, e) && e !in runs[0] {
        var i :| 0 <= i < |runs| && e in runs[i];
        assert e in runs[1..][i - 1];
      }
    }
  }

  lemma {:induction false} MergeSorts(runs: seq<Run>)
    requires AllSorted(runs) && DistinctKeys(runs)
    ensures Sorted(Merge(runs))
  {
    if runs != [] {
      var rest := runs[1..];
      MergeSorts(rest);
      forall x, y | x in runs[0] && y in Merge(rest)
        ensures x.ik != y.ik
      {
        MergeHolds(rest, y);
        var i :| 0 <= i < |rest| && y in rest[i];
        assert DisjointKeys(runs[0], runs[i + 1]);
      }
      Merge2Sorts(runs[0], Merge(rest));
    }
  }

  /** A sorted run is determined by its entries. */
  lemma {:induction false} SortedIsUnique(a: Run, b: Run)
    requires Sorted(a) && Sorted(b) && forall e :: e in a <==> e in b
    ensures a == b
  {
    if a != [] { assert a[0] in b; }
    if b != [] { assert b[0] in a; }
    if a != [] {
      HeadIsLeast(a);
      HeadIsLeast(b);
      LessComparesTrailers(a[0].ik, b[0].ik);
      forall e ensures e in a[1..] <==> e in b[1..] {
        if e in a[1..] { assert e in a; }
        if e in b[1..] { assert e in b; }
      }
      SortedIsUnique(a[1..], b[1..]);
    }
  }
}
