/** DoCompactionWork (db/db_impl.cc) and IsBaseLevelForKey (db/version_set.cc): which entries
    a compaction keeps, and the files it writes them to.  */
module CompactionRun {
  import opened Keys
  import opened Versions

  // ------------------------------------------------------------------ base level

  /** No file two or more levels down has a user-key range containing `user`. */
  ghost predicate IsBase(v: seq<seq<File>>, level: nat, user: UserKey) {
    forall l, f :: level + 2 <= l < |v| && f in v[l] ==> !Covers(f, user)
  }

  /** The level_ptrs_ of a Compaction: per level, files that can no longer matter. */
  class BaseLevel {
    const v: seq<seq<File>>
    const level: nat
    const ptrs: array<nat>
    ghost var lastKey: Option<UserKey>

    ghost predicate Valid()
      reads this, ptrs
    {
      && |v| == NUM_LEVELS && ptrs.Length == NUM_LEVELS
      && (forall l :: level + 2 <= l < NUM_LEVELS ==> AllFilesOk(v[l]) && Disjoint(v[l]))
      && (forall l :: 0 <= l < NUM_LEVELS ==> ptrs[l] <= |v[l]|)
      && (forall l, i :: level + 2 <= l < NUM_LEVELS && 0 <= i < ptrs[l] ==>
            lastKey.Some? && v[l][i].largest.user < lastKey.value)
    }

    constructor (v: seq<seq<File>>, level: nat)
      requires |v| == NUM_LEVELS
      requires forall l :: level + 2 <= l < NUM_LEVELS ==> AllFilesOk(v[l]) && Disjoint(v[l])
      ensures Valid() && fresh(ptrs) && this.v == v && this.level == level && lastKey == None
    {
      this.v := v;
      this.level := level;
      lastKey := None;
      ptrs := new nat[NUM_LEVELS](_ => 0);
    }

    /** The pointers only move forward, so the answer is right only for nondecreasing keys. */
    method IsBaseLevelForKey(user: UserKey) returns (base: bool)
      requires Valid() && (lastKey.Some? ==> lastKey.value <= user)
      modifies this, ptrs
      ensures Valid() && lastKey == Some(user)
      ensures base <==> IsBase(v, level, user)
    {
      lastKey := Some(user);
      var lvl := level + 2;
      while lvl < NUM_LEVELS
        invariant level + 2 <= lvl
        invariant Valid() && lastKey == Some(user)
        invariant forall l, f :: level + 2 <= l < lvl && l < NUM_LEVELS && f in v[l] ==> !Covers(f, user)
      {
        var files := v[lvl];
        while ptrs[lvl] < |files| && files[ptrs[lvl]].largest.user < user
          invariant Valid() && lastKey == Some(user)
          decreases |files| - ptrs[lvl]
        {
          ptrs[lvl] := ptrs[lvl] + 1;
        }
        if ptrs[lvl] < |files| && files[ptrs[lvl]].smallest.user <= user {
          assert files[ptrs[lvl]] in v[lvl] && Covers(files[ptrs[lvl]], user);
          return false;
        }
        PastPointer(files, ptrs[lvl], user);
        lvl := lvl + 1;
      }
      base := true;
    }
  }

  lemma PastPointer(files: seq<File>, p: nat, user: UserKey)
    requires AllFilesOk(files) && Disjoint(files) && p <= |files|
    requires forall i :: 0 <= i < p ==> files[i].largest.user < user
    requires p < |files| ==> files[p].smallest.user > user
    ensures forall f :: f in files ==> !Covers(f, user)
  {
    forall f | f in files
      ensures !Covers(f, user)
    {
      var j :| 0 <= j < |files| && files[j] == f;
      if j > p {
        SmallestToLargest(files[p]);
      }
    }
  }

  // ------------------------------------------------------------------ the drop rules

  /** last_sequence_for_key when the loop reaches entry `n`. */
  function LastSequence(m: Run, n: nat): nat
    requires n < |m|
  {
    if n > 0 && m[n - 1].ik.user == m[n].ik.user then m[n - 1].ik.seqno else MAX_SEQUENCE
  }

  ghost predicate Dropped(v: seq<seq<File>>, level: nat, smallest: nat, m: Run, n: nat)
    requires n < |m|
  {
    || LastSequence(m, n) <= smallest
    || (m[n].ik.typ.Deletion? && m[n].ik.seqno <= smallest && IsBase(v, level, m[n].ik.user))
  }

  /** The entries written for the first `n` input entries. */
  ghost function Kept(v: seq<seq<File>>, level: nat, smallest: nat, m: Run, n: nat): (r: Run)
    requires n <= |m|
  {
    if n == 0 then [] else
    Kept(v, level, smallest, m, n - 1) + if Dropped(v, level, smallest, m, n - 1) then [] else [m[n - 1]]
  }

  /** A newer entry for the same user key is already visible to every live snapshot. */
  ghost predicate Hidden(m: Run, smallest: nat, e: Entry) {
    exists x :: x in m && x.ik.user == e.ik.user && e.ik.seqno < x.ik.seqno <= smallest
  }

  ghost predicate ObsoleteMarker(v: seq<seq<File>>, level: nat, smallest: nat, e: Entry) {
    e.ik.typ.Deletion? && e.ik.seqno <= smallest && IsBase(v, level, e.ik.user)
  }

  /** Which entries a compaction keeps, said without the order of the loop. */
  lemma KeptExactly(v: seq<seq<File>>, level: nat, smallest: nat, m: Run, e: Entry)
    requires Sorted(m) && smallest < MAX_SEQUENCE
    requires forall x, y :: x in m && y in m && x.ik.seqno == y.ik.seqno ==> x == y
    ensures e in Kept(v, level, smallest, m, |m|) <==>
            e in m && !Hidden(m, smallest, e) && !ObsoleteMarker(v, level, smallest, e)
  {
    KeptSoFar(v, level, smallest, m, |m|, e);
    if e in m {
      var i :| 0 <= i < |m| && m[i] == e;
      DroppedMeans(v, level, smallest, m, i);
      forall j | 0 <= j < |m| && m[j] == e ensures j == i {}
    }
  }

  lemma {:induction false} KeptSoFar(v: seq<seq<File>>, level: nat, smallest: nat, m: Run, n: nat, e: Entry)
    requires n <= |m|
    ensures e in Kept(v, level, smallest, m, n) <==>
            exists i :: 0 <= i < n && m[i] == e && !Dropped(v, level, smallest, m, i)
  {
    if n > 0 {
      KeptSoFar(v, level, smallest, m, n - 1, e);
    }
  }

  lemma DroppedMeans(v: seq<seq<File>>, level: nat, smallest: nat, m: Run, n: nat)
    requires Sorted(m) && smallest < MAX_SEQUENCE && n < |m|
    requires forall x, y :: x in m && y in m && x.ik.seqno == y.ik.seqno ==> x == y
    ensures Dropped(v, level, smallest, m, n) <==> Hidden(m, smallest, m[n]) || ObsoleteMarker(v, level, smallest, m[n])
  {
    if LastSequence(m, n) <= smallest {
      assert Less(m[n - 1].ik, m[n].ik) && m[n - 1] in m && m[n] in m;
      assert m[n - 1] != m[n];
    }
    if Hidden(m, smallest, m[n]) {
      var x :| x in m && x.ik.user == m[n].ik.user && m[n].ik.seqno < x.ik.seqno <= smallest;
      var j :| 0 <= j < |m| && m[j] == x;
      assert j < n;
      if j < n - 1 {
        assert Less(m[j].ik, m[n - 1].ik) && Less(m[n - 1].ik, m[n].ik);
      }
    }
  }

  lemma {:induction false} KeptIsSorted(v: seq<seq<File>>, level: nat, smallest: nat, m: Run, n: nat)
    requires Sorted(m) && n <= |m|
    ensures Sorted(Kept(v, level, smallest, m, n))
    ensures forall e :: e in Kept(v, level, smallest, m, n) ==> e in m[..n]
  {
    if n > 0 {
      KeptIsSorted(v, level, smallest, m, n - 1);
      var r := Kept(v, level, smallest, m, n - 1);
      forall i | 0 <= i < |r| ensures Less(r[i].ik, m[n - 1].ik) {
        assert r[i] in m[..n - 1];
      }
    }
  }

  // ------------------------------------------------------------------ writing the outputs

  function Contents(files: seq<File>): Run {
    if files == [] then [] else Contents(files[..|files| - 1]) + files[|files| - 1].run
  }

  ghost predicate HasBounds(f: File) {
    f.run != [] && f.smallest == f.run[0].ik && f.largest == f.run[|f.run| - 1].ik
  }

  lemma {:induction false} ContentsHolds(files: seq<File>, e: Entry)
    ensures e in Contents(files) <==> e in LevelEntries(files)
  {
    if files != [] {
      var init, f := files[..|files| - 1], files[|files| - 1];
      assert files == init + [f];
      ContentsHolds(init, e);
    }
  }

  /** Cutting a sorted run into nonempty pieces gives well-formed, disjoint files. */
  lemma {:induction false} PiecesAreDisjoint(files: seq<File>)
    requires Sorted(Contents(files)) && forall f :: f in files ==> HasBounds(f)
    ensures AllFilesOk(files) && Disjoint(files)
  {
    if files != [] {
      var init, f := files[..|files| - 1], files[|files| - 1];
      assert files == init + [f];
      var c := Contents(files);
      SortedPieces(Contents(init), f.run);
      PiecesAreDisjoint(init);
      forall i | 0 <= i < |init|
        ensures Less(init[i].largest, f.smallest)
      {
        assert init[i] in files && f in files;
        var last := init[i].run[|init[i].run| - 1];
        assert last in init[i].run && f.run[0] in f.run;
        ContentsHolds(init, last);
      }
    }
  }

  lemma SortedPieces(a: Run, b: Run)
    requires Sorted(a + b)
    ensures Sorted(a) && Sorted(b)
    ensures forall x, y :: x in a && y in b ==> Less(x.ik, y.ik)
  {
    forall i, j | 0 <= i < j < |a| ensures Less(a[i].ik, a[j].ik) {
      assert (a + b)[i] == a[i] && (a + b)[j] == a[j];
    }
    forall i, j | 0 <= i < j < |b| ensures Less(b[i].ik, b[j].ik) {
      assert (a + b)[|a| + i] == b[i] && (a + b)[|a| + j] == b[j];
    }
    forall x, y | x in a && y in b ensures Less(x.ik, y.ik) {
      var i :| 0 <= i < |a| && a[i] == x;
      var j :| 0 <= j < |b| && b[j] == y;
      assert (a + b)[i] == x && (a + b)[|a| + j] == y;
    }
  }

  ghost predicate FreshNumbers(files: seq<File>, lo: nat, hi: nat) {
    && (forall i :: 0 <= i < |files| ==> lo <= files[i].number < hi)
    && (forall i, j :: 0 <= i < j < |files| ==> files[i].number < files[j].number)
  }

  /** The outputs and the open builder of a CompactionState. */
  class Outputs {
    const firstFile: nat
    var files: seq<File>
    var builder: Run
    var number: nat
    var nextFile: nat

    ghost predicate Valid()
      reads this
    {
      && (forall f :: f in files ==> HasBounds(f))
      && firstFile <= nextFile
      && FreshNumbers(files, firstFile, if builder != [] then number else nextFile)
      && (builder != [] ==> firstFile <= number < nextFile)
    }

    ghost function Written(): Run
      reads this
    {
      Contents(files) + builder
    }

    constructor (nextFile: nat)
      ensures Valid() && Written() == [] && builder == [] && firstFile == nextFile
    {
      firstFile := nextFile;
      this.nextFile := nextFile;
      files, builder, number := [], [], 0;
    }

    /** FinishCompactionOutputFile. */
    method Finish()
      requires Valid() && builder != []
      modifies this
      ensures Valid() && builder == [] && Written() == old(Written())
    {
      var size: nat := *;
      var f := File(number, size, builder[0].ik, builder[|builder| - 1].ik, builder);
      files := files + [f];
      assert files[..|files| - 1] == old(files);
      builder := [];
    }

    /** Add an entry, opening an output file first if necessary. */
    method Add(e: Entry)
      requires Valid()
      modifies this
      ensures Valid() && builder != [] && Written() == old(Written()) + [e]
    {
      if builder == [] {
        number, nextFile := nextFile, nextFile + 1;
      }
      builder := builder + [e];
    }

    /** One iteration: ShouldStopBefore and the size limit may each close the current file. */
    method Process(e: Entry, drop: bool)
      requires Valid()
      modifies this
      ensures Valid() && Written() == old(Written()) + if drop then [] else [e]
    {
      var stopBefore := *;
      if stopBefore && builder != [] {
        Finish();
      }
      if !drop {
        Add(e);
        var bigEnough := *;
        if bigEnough {
          Finish();
        }
      }
    }
  }

  /** The part of the loop state that decides whether an entry is dropped. */
  class DropRules {
    const base: BaseLevel
    const smallest: nat
    var hasCurrentKey: bool
    var currentKey: UserKey
    var lastSequence: nat

    /** The state after the first `n` entries of `m`. */
    ghost predicate Valid(m: Run, n: nat)
      reads this, base, base.ptrs
    {
      && base.Valid() && n <= |m|
      && (base.lastKey.Some? ==> n > 0 && base.lastKey.value <= m[n - 1].ik.user)
      && (hasCurrentKey <==> n > 0)
      && (hasCurrentKey ==> currentKey == m[n - 1].ik.user && lastSequence == m[n - 1].ik.seqno)
    }

    constructor (base: BaseLevel, smallest: nat, ghost m: Run)
      requires base.Valid() && base.lastKey == None
      ensures Valid(m, 0) && this.base == base && this.smallest == smallest
    {
      this.base, this.smallest := base, smallest;
      hasCurrentKey, currentKey, lastSequence := false, 0.0, MAX_SEQUENCE;
    }

    method ShouldDrop(e: Entry, ghost m: Run, ghost n: nat) returns (drop: bool)
      requires Valid(m, n) && n < |m| && e == m[n] && Sorted(m)
      modifies this, base, base.ptrs
      ensures Valid(m, n + 1)
      ensures drop <==> Dropped(base.v, base.level, smallest, m, n)
    {
      drop := false;
      assert n > 0 ==> Less(m[n - 1].ik, e.ik);
      if !hasCurrentKey || e.ik.user != currentKey {
        hasCurrentKey, currentKey, lastSequence := true, e.ik.user, MAX_SEQUENCE;
      }
      if lastSequence <= smallest {
        drop := true;
      } else if e.ik.typ.Deletion? && e.ik.seqno <= smallest {
        drop := base.IsBaseLevelForKey(e.ik.user);
      }
      lastSequence := e.ik.seqno;
    }
  }

  /** The compaction loop over the merged inputs `m`. Where output files are cut depends on
      file sizes and on the grandparent level; both are left open here. */
  method DoCompactionWork(v: seq<seq<File>>, level: nat, smallest: nat, m: Run, nextFile: nat)
    returns (outputs: seq<File>, next: nat)
    requires |v| == NUM_LEVELS
    requires forall l :: level + 2 <= l < NUM_LEVELS ==> AllFilesOk(v[l]) && Disjoint(v[l])
    requires Sorted(m)
    ensures Contents(outputs) == Kept(v, level, smallest, m, |m|)
    ensures AllFilesOk(outputs) && Disjoint(outputs)
    ensures next >= nextFile && FreshNumbers(outputs, nextFile, next)
  {
    hide AllFilesOk, Disjoint, Sorted, Dropped, HasBounds;
    var base := new BaseLevel(v, level);
    var rules := new DropRules(base, smallest, m);
    var out := new Outputs(nextFile);
    for i := 0 to |m|
      invariant fresh(base) && fresh(base.ptrs) && fresh(rules) && fresh(out)
      invariant rules.base == base && rules.smallest == smallest && base.v == v && base.level == level
      invariant rules.Valid(m, i)
      invariant out.Valid() && out.firstFile == nextFile
      invariant out.Written() == Kept(v, level, smallest, m, i)
    {
      var drop := rules.ShouldDrop(m[i], m, i);
      out.Process(m[i], drop);
    }
    if out.builder != [] {
      out.Finish();
    }
    outputs, next := out.files, out.nextFile;
    assert out.Written() == Contents(outputs);
    KeptIsSorted(v, level, smallest, m, |m|);
    PiecesAreDisjoint(outputs);
  }
}
