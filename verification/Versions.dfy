/** Table files, versions, and the level-by-level, early-stopping point lookup
    (db/version_set.h, db/version_set.cc).  */
module Versions {
  import opened Keys

  const NUM_LEVELS := 7

  /** FileMetaData, together with the entries of the table it names. */
  datatype File = File(number: nat, size: nat, smallest: IKey, largest: IKey, run: Run)

  ghost predicate FileOk(f: File) {
    && f.run != [] && Sorted(f.run)
    && f.smallest == f.run[0].ik && f.largest == f.run[|f.run| - 1].ik
  }

  ghost predicate AllFilesOk(files: seq<File>) {
    forall f :: f in files ==> FileOk(f)
  }

  /** The invariant of levels 1 and up: files are sorted and disjoint by internal key. */
  ghost predicate Disjoint(files: seq<File>) {
    forall i, j :: 0 <= i < j < |files| ==> Less(files[i].largest, files[j].smallest)
  }

  ghost function LevelEntries(files: seq<File>): set<Entry> {
    set f, e | f in files && e in f.run :: e
  }

  /** Every entry of `older` is older than every entry of `newer` for the same user key. */
  ghost predicate Newer(newer: set<Entry>, older: set<Entry>) {
    forall x, y :: x in newer && y in older && x.ik.user == y.ik.user ==> x.ik.seqno > y.ik.seqno
  }

  ghost predicate Level0Ok(files: seq<File>) {
    && DistinctNumbers(files)
    && (forall f, g :: f in files && g in files && f.number > g.number ==> Newer(Elems(f.run), Elems(g.run)))
  }

  /** What every version in a reachable state satisfies. */
  ghost predicate VersionOk(v: seq<seq<File>>) {
    && |v| == NUM_LEVELS
    && (forall l :: 0 <= l < |v| ==> AllFilesOk(v[l]))
    && (forall l :: 1 <= l < |v| ==> Disjoint(v[l]))
    && Level0Ok(v[0])
    && (forall l, m :: 0 <= l < m < |v| ==> Newer(LevelEntries(v[l]), LevelEntries(v[m])))
  }

  /** All entries stored in levels `l` and up. */
  ghost function EntriesFrom(v: seq<seq<File>>, l: nat): set<Entry>
    decreases |v| - l
  {
    if l >= |v| then {} else LevelEntries(v[l]) + EntriesFrom(v, l + 1)
  }

  lemma {:induction false} EntriesFromHolds(v: seq<seq<File>>, l: nat, e: Entry)
    ensures e in EntriesFrom(v, l) <==> exists m :: l <= m < |v| && e in LevelEntries(v[m])
    decreases |v| - l
  {
    if l < |v| {
      EntriesFromHolds(v, l + 1, e);
    }
  }

  // ------------------------------------------------------------------ finding the file

  method FindFile(files: seq<File>, key: IKey) returns (r: nat)
    requires AllFilesOk(files) && Disjoint(files)
    ensures r <= |files|
    ensures forall i :: 0 <= i < r ==> Less(files[i].largest, key)
    ensures forall i :: r <= i < |files| ==> !Less(files[i].largest, key)
  {
    forall i, j | 0 <= i < j < |files|
      ensures Less(files[i].largest, files[j].largest)
    {
      SmallestToLargest(files[j]);
    }
    var left, right := 0, |files|;
    while left < right
      invariant 0 <= left <= right <= |files|
      invariant forall i :: 0 <= i < left ==> Less(files[i].largest, key)
      invariant forall i :: right <= i < |files| ==> !Less(files[i].largest, key)
    {
      var mid := (left + right) / 2;
      if Less(files[mid].largest, key) {
        left := mid + 1;
      } else {
        right := mid;
      }
    }
    r := right;
  }

  lemma SmallestToLargest(f: File)
    requires FileOk(f)
    ensures !Less(f.largest, f.smallest) && f.smallest.user <= f.largest.user
    ensures forall e :: e in f.run ==> !Less(e.ik, f.smallest) && !Less(f.largest, e.ik)
    ensures forall e :: e in f.run ==> f.smallest.user <= e.ik.user <= f.largest.user
  {
    assert f.run[0] in f.run && f.run[|f.run| - 1] in f.run;
  }

  /** The specification of FindFile: the first file whose largest key is not before `key`. */
  function FileIndex(files: seq<File>, key: IKey): (n: nat)
    ensures n <= |files|
    ensures forall i :: 0 <= i < n ==> Less(files[i].largest, key)
    ensures n < |files| ==> !Less(files[n].largest, key)
  {
    if files == [] || !Less(files[0].largest, key) then 0 else 1 + FileIndex(files[1..], key)
  }

  // ------------------------------------------------------------------ specification of Version::Get

  /** One sorted level: at most one file can hold the newest visible entry. */
  function SortedLevelGet(files: seq<File>, user: UserKey, s: nat): Option<Entry> {
    var i := FileIndex(files, LookupKey(user, s));
    if i < |files| && files[i].smallest.user <= user then RunGet(files[i].run, user, s) else None
  }

  /** NewestFirst order: std::sort by descending file number. */
  function InsertNewest(f: File, files: seq<File>): (r: seq<File>)
    ensures forall g :: g in r <==> g == f || g in files
  {
    if files == [] || f.number > files[0].number then [f] + files
    else [files[0]] + InsertNewest(f, files[1..])
  }

  function SortNewestFirst(files: seq<File>): (r: seq<File>)
    ensures forall g :: g in r <==> g in files
  {
    if files == [] then [] else InsertNewest(files[0], SortNewestFirst(files[1..]))
  }

  predicate NewestFirst(files: seq<File>) {
    forall i, j :: 0 <= i < j < |files| ==> files[i].number > files[j].number
  }

  lemma {:induction false} InsertNewestSorts(f: File, files: seq<File>)
    requires NewestFirst(files)
    requires forall g :: g in files ==> g.number != f.number
    ensures NewestFirst(InsertNewest(f, files))
  {
    if files != [] && f.number <= files[0].number {
      InsertNewestSorts(f, files[1..]);
      var r := InsertNewest(f, files[1..]);
      forall j | 0 <= j < |r|
        ensures files[0].number > r[j].number
      {
        assert r[j] in r;
      }
    }
  }

  predicate DistinctNumbers(files: seq<File>) {
    forall i, j :: 0 <= i < j < |files| ==> files[i].number != files[j].number
  }

  lemma {:induction false} SortNewestFirstSorts(files: seq<File>)
    requires DistinctNumbers(files)
    ensures NewestFirst(SortNewestFirst(files))
  {
    if files != [] {
      SortNewestFirstSorts(files[1..]);
      InsertNewestSorts(files[0], SortNewestFirst(files[1..]));
    }
  }

  predicate Covers(f: File, user: UserKey) {
    f.smallest.user <= user <= f.largest.user
  }

  function Covering(files: seq<File>, user: UserKey): (r: seq<File>)
    ensures forall f :: f in r <==> f in files && Covers(f, user)
  {
    if files == [] then []
    else (if Covers(files[0], user) then [files[0]] else []) + Covering(files[1..], user)
  }

  lemma {:induction false} CoveringIsDistinct(files: seq<File>, user: UserKey)
    requires DistinctNumbers(files)
    ensures DistinctNumbers(Covering(files, user))
  {
    if files != [] {
      CoveringIsDistinct(files[1..], user);
      var rest := Covering(files[1..], user);
      forall j | 0 <= j < |rest|
        ensures rest[j].number != files[0].number
      {
        assert rest[j] in rest;
      }
    }
  }

  /** Search files in the given order and stop at the first that has the user key. */
  function FirstHit(files: seq<File>, user: UserKey, s: nat): Option<Entry> {
    if files == [] then None else
    var r := RunGet(files[0].run, user, s);
    if r.Some? then r else FirstHit(files[1..], user, s)
  }

  function LevelGet(v: seq<seq<File>>, l: nat, user: UserKey, s: nat): Option<Entry>
    requires l < |v|
  {
    if l == 0 then FirstHit(SortNewestFirst(Covering(v[0], user)), user, s)
    else SortedLevelGet(v[l], user, s)
  }

  function GetFrom(v: seq<seq<File>>, l: nat, user: UserKey, s: nat): Option<Entry>
    decreases |v| - l
  {
    if l >= |v| then None else
    var r := LevelGet(v, l, user, s);
    if r.Some? then r else GetFrom(v, l + 1, user, s)
  }

  // ------------------------------------------------------------------ the lookup is complete

  /** Stopping early is sound when what was searched first is newer than the rest. */
  lemma EarlyStop(newer: set<Entry>, older: set<Entry>, user: UserKey, s: nat, a: Option<Entry>, b: Option<Entry>)
    requires Newer(newer, older)
    requires Finds(newer, user, s, a)
    requires a.None? ==> Finds(older, user, s, b)
    ensures Finds(newer + older, user, s, if a.Some? then a else b)
  {
  }

  lemma SortedLevelGetFinds(files: seq<File>, user: UserKey, s: nat)
    requires AllFilesOk(files) && Disjoint(files)
    ensures Finds(LevelEntries(files), user, s, SortedLevelGet(files, user, s))
  {
    var n := FileIndex(files, LookupKey(user, s));
    if n < |files| {
      assert files[n] in files;
      RunGetFinds(files[n].run, user, s);
      RunGetHolds(files[n].run, user, s);
    }
    hide RunGet, Disjoint, FileOk, FileIndex;
    forall x | x in LevelEntries(files) && x.ik.user == user && x.ik.seqno <= s
      ensures n < |files| && RunGet(files[n].run, user, s).Some?
      ensures x.ik.seqno <= RunGet(files[n].run, user, s).value.ik.seqno
    {
      VisibleInLevel(files, user, s, x);
    }
  }

  lemma RunGetHolds(r: Run, user: UserKey, s: nat)
    ensures RunGet(r, user, s).Some? ==> RunGet(r, user, s).value in r
  {
  }

  /** The file the search picks holds the newest visible entry of the user key, if the level has one. */
  lemma VisibleInLevel(files: seq<File>, user: UserKey, s: nat, x: Entry)
    requires AllFilesOk(files) && Disjoint(files)
    requires x in LevelEntries(files) && x.ik.user == user && x.ik.seqno <= s
    ensures var n := FileIndex(files, LookupKey(user, s));
            && n < |files| && RunGet(files[n].run, user, s).Some?
            && x.ik.seqno <= RunGet(files[n].run, user, s).value.ik.seqno
  {
    hide FileOk, RunGet;
    var t := LookupKey(user, s);
    var n := FileIndex(files, t);
    var f :| f in files && x in f.run;
    var j :| 0 <= j < |files| && files[j] == f;
    SmallestToLargest(f);
    assert j >= n && files[n] in files;
    if j > n {
      assert Less(files[n].largest, f.smallest);
    }
    hide Disjoint, FileIndex;
    VisibleInFile(files[n], user, s, x, j == n);
  }

  /** A file that ends at or above the lookup key and holds the entry, or ends before it. */
  lemma VisibleInFile(f: File, user: UserKey, s: nat, x: Entry, within: bool)
    requires FileOk(f) && x.ik.user == user && x.ik.seqno <= s && !Less(f.largest, LookupKey(user, s))
    requires if within then x in f.run else Less(f.largest, x.ik)
    ensures RunGet(f.run, user, s).Some? && x.ik.seqno <= RunGet(f.run, user, s).value.ik.seqno
  {
    RunGetFinds(f.run, user, s);
    SmallestToLargest(f);
    if !within {
      assert f.run[|f.run| - 1] in Elems(f.run);
    }
  }

  ghost predicate RunsNewestFirst(files: seq<File>) {
    forall i, j :: 0 <= i < j < |files| ==> Newer(Elems(files[i].run), Elems(files[j].run))
  }

  lemma HeadIsNewer(files: seq<File>)
    requires files != [] && RunsNewestFirst(files)
    ensures Newer(Elems(files[0].run), LevelEntries(files[1..]))
  {
    forall x, y | x in Elems(files[0].run) && y in LevelEntries(files[1..]) && x.ik.user == y.ik.user
      ensures x.ik.seqno > y.ik.seqno
    {
      var g :| g in files[1..] && y in g.run;
      var j :| 1 <= j < |files| && files[j] == g;
      assert y in Elems(files[j].run);
    }
  }

  lemma HeadAndTail(files: seq<File>)
    requires files != []
    ensures LevelEntries(files) == Elems(files[0].run) + LevelEntries(files[1..])
  {
    assert files == [files[0]] + files[1..];
  }

  lemma {:induction false} FirstHitFinds(files: seq<File>, user: UserKey, s: nat)
    requires AllFilesOk(files) && RunsNewestFirst(files)
    ensures Finds(LevelEntries(files), user, s, FirstHit(files, user, s))
  {
    if files != [] {
      var rest := files[1..];
      FirstHitFinds(rest, user, s);
      assert files[0] in files;
      RunGetFinds(files[0].run, user, s);
      HeadIsNewer(files);
      HeadAndTail(files);
      EarlyStop(Elems(files[0].run), LevelEntries(rest), user, s,
                RunGet(files[0].run, user, s), FirstHit(rest, user, s));
    }
  }

  lemma NewestFirstIsNewer(files: seq<File>, tmp: seq<File>)
    requires Level0Ok(files) && NewestFirst(tmp)
    requires forall f :: f in tmp ==> f in files
    ensures RunsNewestFirst(tmp)
  {
    forall i, j | 0 <= i < j < |tmp|
      ensures Newer(Elems(tmp[i].run), Elems(tmp[j].run))
    {
      assert tmp[i] in tmp && tmp[j] in tmp;
    }
  }

  /** Files that do not cover the user key cannot hold it. */
  lemma CoveringSuffices(files: seq<File>, tmp: seq<File>, user: UserKey, s: nat, found: Option<Entry>)
    requires AllFilesOk(files)
    requires forall f :: f in tmp <==> f in files && Covers(f, user)
    requires Finds(LevelEntries(tmp), user, s, found)
    ensures Finds(LevelEntries(files), user, s, found)
  {
    forall x | x in LevelEntries(files) && x.ik.user == user
      ensures x in LevelEntries(tmp)
    {
      var f :| f in files && x in f.run;
      SmallestToLargest(f);
    }
  }

  lemma Level0GetFinds(files: seq<File>, user: UserKey, s: nat)
    requires AllFilesOk(files) && Level0Ok(files)
    ensures Finds(LevelEntries(files), user, s, FirstHit(SortNewestFirst(Covering(files, user)), user, s))
  {
    var tmp := SortNewestFirst(Covering(files, user));
    CoveringIsDistinct(files, user);
    SortNewestFirstSorts(Covering(files, user));
    NewestFirstIsNewer(files, tmp);
    assert forall f :: f in tmp <==> f in files && Covers(f, user);
    FirstHitFinds(tmp, user, s);
    CoveringSuffices(files, tmp, user, s, FirstHit(tmp, user, s));
  }

  lemma LevelGetFinds(v: seq<seq<File>>, l: nat, user: UserKey, s: nat)
    requires VersionOk(v) && l < |v|
    ensures Finds(LevelEntries(v[l]), user, s, LevelGet(v, l, user, s))
  {
    if l == 0 {
      Level0GetFinds(v[0], user, s);
    } else {
      SortedLevelGetFinds(v[l], user, s);
    }
  }

  lemma NewerThanTheRest(v: seq<seq<File>>, l: nat)
    requires VersionOk(v) && l < |v|
    ensures Newer(LevelEntries(v[l]), EntriesFrom(v, l + 1))
  {
    forall x, y | x in LevelEntries(v[l]) && y in EntriesFrom(v, l + 1) && x.ik.user == y.ik.user
      ensures x.ik.seqno > y.ik.seqno
    {
      EntriesFromHolds(v, l + 1, y);
    }
  }

  /** Searching level by level and stopping at the first hit finds the newest visible entry. */
  lemma {:induction false} GetFromFinds(v: seq<seq<File>>, l: nat, user: UserKey, s: nat)
    requires VersionOk(v)
    ensures Finds(EntriesFrom(v, l), user, s, GetFrom(v, l, user, s))
    decreases |v| - l
  {
    if l < |v| {
      hide VersionOk, LevelGet, Newer, Finds;
      LevelGetFinds(v, l, user, s);
      GetFromFinds(v, l + 1, user, s);
      NewerThanTheRest(v, l);
      EarlyStop(LevelEntries(v[l]), EntriesFrom(v, l + 1), user, s,
                LevelGet(v, l, user, s), GetFrom(v, l + 1, user, s));
    }
  }

  // ------------------------------------------------------------------ Version::Get

  lemma FileIndexIsUnique(files: seq<File>, key: IKey, r: nat)
    requires r <= |files|
    requires forall i :: 0 <= i < r ==> Less(files[i].largest, key)
    requires r < |files| ==> !Less(files[r].largest, key)
    ensures r == FileIndex(files, key)
  {
  }

  lemma OneHit(files: seq<File>, user: UserKey, s: nat)
    requires |files| <= 1
    ensures FirstHit(files, user, s) == if files == [] then None else RunGet(files[0].run, user, s)
  {
    if files != [] { assert files[1..] == []; }
  }

  lemma CoveringStep(files: seq<File>, i: nat, user: UserKey, tmp: seq<File>)
    requires i < |files|
    ensures tmp + Covering(files[i..], user) ==
            (if Covers(files[i], user) then tmp + [files[i]] else tmp) + Covering(files[i + 1..], user)
  {
    assert files[i..][1..] == files[i + 1..];
  }

  /** The level-0 files that may hold the user key. */
  method CollectCovering(files: seq<File>, user: UserKey) returns (tmp: seq<File>)
    ensures tmp == Covering(files, user)
  {
    hide Covering;
    tmp := [];
    assert files[0..] == files;
    for i := 0 to |files|
      invariant tmp + Covering(files[i..], user) == Covering(files, user)
    {
      CoveringStep(files, i, user, tmp);
      if files[i].smallest.user <= user && user <= files[i].largest.user {
        tmp := tmp + [files[i]];
      }
    }
    NothingCovers(files[|files|..], user);
  }

  lemma NothingCovers(files: seq<File>, user: UserKey)
    requires files == []
    ensures Covering(files, user) == []
  {
  }

  /** The files of one level to search, in order. */
  method FilesToSearch(files: seq<File>, level: nat, user: UserKey, s: nat) returns (tmp: seq<File>)
    requires AllFilesOk(files) && (level > 0 ==> Disjoint(files))
    ensures FirstHit(tmp, user, s) ==
            if level == 0 then FirstHit(SortNewestFirst(Covering(files, user)), user, s)
            else SortedLevelGet(files, user, s)
  {
    hide FirstHit, Disjoint, AllFilesOk, FileIndex, RunGet, SortNewestFirst, Covering;
    if level == 0 {
      tmp := CollectCovering(files, user);
      tmp := SortNewestFirst(tmp);
    } else {
      tmp := [];
      var index := FindFile(files, LookupKey(user, s));
      FileIndexIsUnique(files, LookupKey(user, s), index);
      if index < |files| && files[index].smallest.user <= user {
        tmp := [files[index]];
      }
      OneHit(tmp, user, s);
    }
  }

  method VersionGet(v: seq<seq<File>>, user: UserKey, s: nat) returns (found: Option<Entry>)
    requires VersionOk(v)
    ensures found == GetFrom(v, 0, user, s)
    ensures Finds(EntriesFrom(v, 0), user, s, found)
  {
    GetFromFinds(v, 0, user, s);
    for level := 0 to NUM_LEVELS
      invariant GetFrom(v, 0, user, s) == GetFrom(v, level, user, s)
    {
      var files := FilesToSearch(v[level], level, user, s);
      assert LevelGet(v, level, user, s) == FirstHit(files, user, s);
      for i := 0 to |files|
        invariant FirstHit(files, user, s) == FirstHit(files[i..], user, s)
      {
        assert files[i..][1..] == files[i + 1..];
        var r := RunGet(files[i].run, user, s);
        if r.Some? {
          return r;
        }
      }
    }
    found := None;
  }
}
