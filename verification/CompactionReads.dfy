/** When does a compaction preserve reads?  Exactly when no deletion marker it drops uncovers
    an older value in a file of the next level that it leaves behind.  */
module CompactionReads {
  import opened Keys
  import opened Versions
  import opened Inputs
  import opened Selection
  import opened Picking
  import opened CompactionRun
  import opened Lsm
  import opened LsmFiles
  import opened LsmSteps
  import opened LsmFlush
  import opened LsmCompaction
  import opened LsmInstall

  /** The entries of the next level that the compaction leaves behind. */
  ghost function LeftBelow(v: seq<seq<File>>, c: Compaction): set<Entry>
    requires c.level + 1 < |v|
  {
    set f, e | f in v[c.level + 1] && f !in c.inputs1 && e in f.run :: e
  }

  /** The compaction drops the deletion marker that a read at smallest_snapshot finds for
      `user`, and the next level keeps an older value. */
  ghost predicate Uncovers(d: Db, c: Compaction, user: UserKey)
    requires c.level + 1 < |d.v|
  {
    exists t, y ::
      && IsNewest(All(d), user, c.smallest, t) && t in InputEntries(c)
      && ObsoleteMarker(c.base, c.level, c.smallest, t)
      && IsNewest(LeftBelow(d.v, c), user, c.smallest, y) && y.ik.typ.Value?
  }

  /** The check SetupOtherInputs makes for `level` but not for `level + 1`: no file of the next
      level continues the user key its inputs end with. */
  ghost predicate NextLevelClosed(c: Compaction)
    requires c.level + 1 < |c.base|
  {
    c.inputs1 == [] || SmallestBoundary(c.base[c.level + 1], LargestKey(c.inputs1)).None?
  }

  lemma EntryCovers(f: File, x: Entry)
    requires FileOk(f) && x in f.run
    ensures Covers(f, x.ik.user)
  {
    SmallestToLargest(f);
  }

  lemma FileAboveIsNewer(v: seq<seq<File>>, c: Compaction, l: nat, f: File, g: File)
    requires VersionOk(v) && InputsOk(c, v)
    requires l <= c.level && f in v[l] && !IsInput(c, l, f) && g in c.inputs0 + c.inputs1
    ensures Newer(Elems(f.run), Elems(g.run))
  {
    hide VersionOk, InputsOk, Newer, Elems, Disjoint, Level0Ok;
    InputFacts(c, v);
    if g in c.inputs1 {
      LevelsNewer(v, l, c.level + 1, f, g);
    } else if l < c.level {
      LevelsNewer(v, l, c.level, f, g);
    }
  }

  lemma NotTwoLevelsDown(v: seq<seq<File>>, c: Compaction, l: nat, f: File, y: Entry, g: File, t: Entry)
    requires BaseOk(c, v) && c.level + 2 <= l < NUM_LEVELS && f in v[l] && y in f.run && FileOk(f)
    requires g in c.inputs0 + c.inputs1 && t in g.run && FileOk(g) && y.ik.user == t.ik.user
    ensures !IsBase(c.base, c.level, t.ik.user)
  {
    EntryCovers(f, y);
    EntryCovers(g, t);
    assert f in c.base[l] || ClearOf(f, c.inputs0 + c.inputs1);
  }

  lemma LeftFileIsOk(v: seq<seq<File>>, l: nat, f: File)
    requires VersionOk(v) && l < |v| && f in v[l]
    ensures FileOk(f)
  {
  }

  lemma FileAmongOk(files: seq<File>, f: File)
    requires AllFilesOk(files) && f in files
    ensures FileOk(f)
  {
  }

  /** Only the next level can hold something older than an input entry whose key is base-level. */
  lemma OlderIsBelow(v: seq<seq<File>>, c: Compaction, y: Entry, t: Entry)
    requires VersionOk(v) && InputsOk(c, v) && BaseOk(c, v)
    requires t in InputEntries(c) && IsBase(c.base, c.level, t.ik.user)
    requires y in LeftEntries(v, c) && y.ik.user == t.ik.user && y.ik.seqno < t.ik.seqno
    ensures y in LeftBelow(v, c)
  {
    hide VersionOk, InputsOk, BaseOk, IsBase, Level0Ok, Disjoint, LeavesNewer, AllFilesOk, Bounded, FileOk;
    InputsAreBounded(c, v);
    InputFacts(c, v);
    var l: nat, f :| l < |v| && f in v[l] && !IsInput(c, l, f) && y in f.run;
    var g :| g in c.inputs0 + c.inputs1 && t in g.run;
    LeftFileIsOk(v, l, f);
    FileAmongOk(c.inputs0 + c.inputs1, g);
    if l <= c.level {
      FileAboveIsNewer(v, c, l, f, g);
    } else if l > c.level + 1 {
      NotTwoLevelsDown(v, c, l, f, y, g, t);
    }
  }

  /** The entries stored after an install: what was left, and the inputs that were kept. */
  ghost predicate IsInstalled(d: Db, d': Db, c: Compaction) {
    forall x :: x in All(d') <==>
      x in All(d) && (x in InputEntries(c) ==>
        !Hidden(MergedInputs(c), c.smallest, x) && !ObsoleteMarker(c.base, c.level, c.smallest, x))
  }

  lemma KeptEntries(c: Compaction, outputs: seq<File>, x: Entry)
    requires Contents(outputs) == Kept(c.base, c.level, c.smallest, MergedInputs(c), |MergedInputs(c)|)
    requires Sorted(MergedInputs(c)) && UniqueSeqnos(InputEntries(c)) && c.smallest < MAX_SEQUENCE
    ensures x in LevelEntries(outputs) <==>
            x in InputEntries(c) && !Hidden(MergedInputs(c), c.smallest, x) &&
              !ObsoleteMarker(c.base, c.level, c.smallest, x)
  {
    var m := MergedInputs(c);
    forall y ensures y in m <==> y in InputEntries(c) { MergedHolds(c, y); }
    hide MergedInputs, InputEntries, IsBase, Hidden, ObsoleteMarker, Kept;
    KeptExactly(c.base, c.level, c.smallest, m, x);
    ContentsHolds(outputs, x);
  }

  lemma FileIsNotInput(v: seq<seq<File>>, c: Compaction, l: nat, f: File, g: File)
    requires VersionOk(v) && InputsOk(c, v) && l < |v| && f in v[l] && !IsInput(c, l, f) && g in c.inputs0 + c.inputs1
    ensures Newer(Elems(f.run), Elems(g.run)) || Newer(Elems(g.run), Elems(f.run)) ||
            (l > 0 && f in v[l] && g in v[l] && f != g)
  {
    InputFacts(c, v);
    InputsInPlace(c, v, g);
    hide VersionOk, InputsOk, Newer, Elems, Disjoint, Level0Ok;
    if l <= c.level {
      FileAboveIsNewer(v, c, l, f, g);
    } else if g in c.inputs0 {
      LevelsNewer(v, c.level, l, g, f);
    } else if l > c.level + 1 {
      LevelsNewer(v, c.level + 1, l, g, f);
    }
  }

  lemma InputsInPlace(c: Compaction, v: seq<seq<File>>, g: File)
    requires InputsOk(c, v) && g in c.inputs0 + c.inputs1
    ensures |v| == NUM_LEVELS && c.level + 1 < NUM_LEVELS
    ensures if g in c.inputs0 then g in v[c.level] else g in v[c.level + 1]
  {
    hide LeavesNewer, GapFree, Listed, Apart, ClearOf;
  }

  lemma SortedFilesShareNothing(files: seq<File>, f: File, g: File, x: Entry)
    requires AllFilesOk(files) && Disjoint(files) && f in files && g in files && f != g && x in f.run
    ensures x !in g.run
  {
    DisjointOrders(files, f, g);
    SmallestToLargest(f);
    SmallestToLargest(g);
  }

  lemma InputsNotLeft(v: seq<seq<File>>, c: Compaction, x: Entry)
    requires VersionOk(v) && InputsOk(c, v) && x in LeftEntries(v, c)
    ensures x !in InputEntries(c)
  {
    var l: nat, f :| l < |v| && f in v[l] && !IsInput(c, l, f) && x in f.run;
    forall g | g in c.inputs0 + c.inputs1 ensures x !in g.run {
      FileIsNotInput(v, c, l, f, g);
      assert l > 0 ==> AllFilesOk(v[l]) && Disjoint(v[l]);
      hide VersionOk, InputsOk, AllFilesOk, Disjoint;
      if x in g.run {
        assert x in Elems(f.run) && x in Elems(g.run);
        SortedFilesShareNothing(v[l], f, g, x);
      }
    }
  }

  lemma MemIsNotInput(d: Db, c: Compaction, x: Entry)
    requires PlacesOk(d.mem, ImmRun(d), d.v, d.log) && InputsOk(c, d.v)
    requires x in Elems(d.mem) + Elems(ImmRun(d))
    ensures x !in InputEntries(c)
    ensures forall t :: t in InputEntries(c) && t.ik.user == x.ik.user ==> x.ik.seqno > t.ik.seqno
  {
    StoredBefore(d.v, c);
    hide InputsOk, EntriesFrom, LeftEntries;
  }

  lemma UniqueSubset(es: set<Entry>, sub: set<Entry>)
    requires UniqueSeqnos(es) && sub <= es
    ensures UniqueSeqnos(sub)
  {
  }

  lemma Installed(d: Db, d': Db, c: Compaction, outputs: seq<File>)
    requires PlacesOk(d.mem, ImmRun(d), d.v, d.log) && VersionOk(d.v) && InputsOk(c, d.v)
    requires UniqueSeqnos(All(d)) && c.smallest < MAX_SEQUENCE
    requires d'.mem == d.mem && d'.imm == d.imm
    requires EntriesFrom(d'.v, 0) == LeftEntries(d.v, c) + LevelEntries(outputs)
    requires Contents(outputs) == Kept(c.base, c.level, c.smallest, MergedInputs(c), |MergedInputs(c)|)
    ensures IsInstalled(d, d', c)
  {
    hide InputsOk, VersionOk, Hidden, ObsoleteMarker, MergedInputs, Kept, PlacesOk, UniqueSeqnos, InputEntries,
         LeftEntries;
    StoredBefore(d.v, c);
    assert InputEntries(c) <= All(d) && EntriesFrom(d.v, 0) <= All(d);
    UniqueSubset(All(d), InputEntries(c));
    UniqueSubset(All(d), EntriesFrom(d.v, 0));
    MergedSorts(c, d.v);
    forall x
      ensures x in All(d') <==>
        x in All(d) && (x in InputEntries(c) ==>
          !Hidden(MergedInputs(c), c.smallest, x) && !ObsoleteMarker(c.base, c.level, c.smallest, x))
    {
      KeptEntries(c, outputs, x);
      if x in LeftEntries(d.v, c) {
        InputsNotLeft(d.v, c, x);
      }
      if x in Elems(d.mem) + Elems(ImmRun(d)) {
        MemIsNotInput(d, c, x);
      }
    }
  }

  // ------------------------------------------------------------------ reads, set-theoretically

  /** Everything a proof about reads needs to know of an install, in terms of entries only. */
  ghost predicate Situation(before: set<Entry>, after: set<Entry>, inputs: set<Entry>, below: set<Entry>,
                            c: Compaction) {
    && UniqueSeqnos(before) && after <= before && inputs <= before && below <= after
    && (forall x :: x in before && x !in inputs ==> x in after)
    && (forall x :: x in inputs ==>
          (x in after <==>
            !(exists n :: n in inputs && n.ik.user == x.ik.user && x.ik.seqno < n.ik.seqno <= c.smallest)
            && !ObsoleteMarker(c.base, c.level, c.smallest, x)))
    && (forall y, t ::
          (y in before && y !in inputs && t in inputs && y.ik.user == t.ik.user && y.ik.seqno < t.ik.seqno
           && IsBase(c.base, c.level, t.ik.user)) ==> y in below)
  }

  ghost predicate UncoversIn(before: set<Entry>, inputs: set<Entry>, below: set<Entry>, c: Compaction, user: UserKey) {
    exists t, y ::
      && IsNewest(before, user, c.smallest, t) && t in inputs
      && ObsoleteMarker(c.base, c.level, c.smallest, t)
      && IsNewest(below, user, c.smallest, y) && y.ik.typ.Value?
  }

  lemma ReadKept(before: set<Entry>, after: set<Entry>, inputs: set<Entry>, below: set<Entry>, c: Compaction,
                 user: UserKey, s: nat, a: Option<Entry>, b: Option<Entry>)
    requires Situation(before, after, inputs, below, c) && s >= c.smallest
    requires Finds(before, user, s, a) && Finds(after, user, s, b)
    requires !UncoversIn(before, inputs, below, c, user)
    ensures Answer(a) == Answer(b)
  {
    if a.Some? && a.value !in after {
      var n := a.value;
      assert ObsoleteMarker(c.base, c.level, c.smallest, n);
      assert IsNewest(before, user, c.smallest, n);
      if b.Some? {
        var y := b.value;
        assert y !in inputs;
        assert IsNewest(below, user, c.smallest, y);
      }
    }
  }

  lemma ReadLost(before: set<Entry>, after: set<Entry>, inputs: set<Entry>, below: set<Entry>, c: Compaction,
                 user: UserKey, a: Option<Entry>, b: Option<Entry>)
    requires Situation(before, after, inputs, below, c)
    requires Finds(before, user, c.smallest, a) && Finds(after, user, c.smallest, b)
    requires UncoversIn(before, inputs, below, c, user)
    ensures Answer(a) == None && Answer(b).Some?
  {
    var t, y :|
      && IsNewest(before, user, c.smallest, t) && t in inputs
      && ObsoleteMarker(c.base, c.level, c.smallest, t)
      && IsNewest(below, user, c.smallest, y) && y.ik.typ.Value?;
    FindsIsUnique(before, user, c.smallest, a, Some(t));
    assert y in after;
    var z := b.value;
    assert z !in inputs && z.ik.seqno != t.ik.seqno;
    assert z in below;
  }

  lemma BelowIsLeft(v: seq<seq<File>>, c: Compaction, x: Entry)
    requires c.level + 1 < |v| && x in LeftBelow(v, c)
    ensures x in LeftEntries(v, c)
  {
    var f :| f in v[c.level + 1] && f !in c.inputs1 && x in f.run;
    assert !IsInput(c, c.level + 1, f);
  }

  lemma HiddenByInput(c: Compaction, x: Entry)
    ensures Hidden(MergedInputs(c), c.smallest, x) <==>
            exists n :: n in InputEntries(c) && n.ik.user == x.ik.user && x.ik.seqno < n.ik.seqno <= c.smallest
  {
    var m, inputs := MergedInputs(c), InputEntries(c);
    forall n ensures n in m <==> n in inputs { MergedHolds(c, n); }
    hide MergedInputs, InputEntries;
    if Hidden(m, c.smallest, x) {
      var n :| n in m && n.ik.user == x.ik.user && x.ik.seqno < n.ik.seqno <= c.smallest;
      assert n in inputs;
    }
    if n :| n in inputs && n.ik.user == x.ik.user && x.ik.seqno < n.ik.seqno <= c.smallest {
      assert n in m;
    }
  }

  lemma OlderOutsideIsBelow(d: Db, c: Compaction, y: Entry, t: Entry)
    requires PlacesOk(d.mem, ImmRun(d), d.v, d.log) && VersionOk(d.v) && InputsOk(c, d.v) && BaseOk(c, d.v)
    requires y in All(d) && y !in InputEntries(c) && t in InputEntries(c) && y.ik.user == t.ik.user &&
             y.ik.seqno < t.ik.seqno
    requires IsBase(c.base, c.level, t.ik.user)
    ensures y in LeftBelow(d.v, c)
  {
    hide VersionOk, InputsOk, BaseOk, IsBase, LeftBelow, PlacesOk, InputEntries, EntriesFrom, LeftEntries, Elems;
    StoredBefore(d.v, c);
    if y in Elems(d.mem) + Elems(ImmRun(d)) {
      MemIsNotInput(d, c, y);
    } else {
      OlderIsBelow(d.v, c, y, t);
    }
  }

  lemma SituationHolds(d: Db, d': Db, c: Compaction)
    requires PlacesOk(d.mem, ImmRun(d), d.v, d.log) && VersionOk(d.v) && InputsOk(c, d.v) && BaseOk(c, d.v)
    requires c.level + 1 < |d.v|
    requires UniqueSeqnos(All(d)) && IsInstalled(d, d', c)
    ensures Situation(All(d), All(d'), InputEntries(c), LeftBelow(d.v, c), c)
  {
    hide VersionOk, InputsOk, BaseOk, ObsoleteMarker, IsBase, LeftBelow, UniqueSeqnos, PlacesOk, InputEntries,
         MergedInputs,
      EntriesFrom, LeftEntries, Elems, Hidden;
    var before, inputs, below := All(d), InputEntries(c), LeftBelow(d.v, c);
    StoredBefore(d.v, c);
    assert inputs <= before && LeftEntries(d.v, c) <= before;
    forall x | x in below ensures x in before && x !in inputs {
      BelowIsLeft(d.v, c, x);
      InputsNotLeft(d.v, c, x);
    }
    forall x ensures Hidden(MergedInputs(c), c.smallest, x) <==>
      exists n :: n in inputs && n.ik.user == x.ik.user && x.ik.seqno < n.ik.seqno <= c.smallest
    {
      HiddenByInput(c, x);
    }
    forall y, t | y in before && y !in inputs && t in inputs && y.ik.user == t.ik.user && y.ik.seqno < t.ik.seqno
                  && IsBase(c.base, c.level, t.ik.user)
      ensures y in below
    {
      OlderOutsideIsBelow(d, c, y, t);
    }
  }

  // ------------------------------------------------------------------ the theorems

  lemma InstallSituation(maxFileSize: nat, d: Db, outputs: seq<File>)
    requires Inv(d) && Enabled(maxFileSize, d, Install(outputs))
    ensures d.running.Some? && InputsOk(d.running.value, d.v)
    ensures var d' := Apply(maxFileSize, d, Install(outputs)); var c := d.running.value;
            && Inv(d') && c.level + 1 < |d.v|
            && Situation(All(d), All(d'), InputEntries(c), LeftBelow(d.v, c), c)
  {
    var d' := Apply(maxFileSize, d, Install(outputs));
    var c := d.running.value;
    InstallKeepsInv(maxFileSize, d, outputs);
    InstallIsOk(maxFileSize, d, outputs);
    InstallMakes(maxFileSize, d, outputs);
    StoredIsLogged(d);
    hide Enabled, Apply, ApplyEdit, Kept, MergedInputs, CompactionEdit, InputsOk, BaseOk, VersionOk, PlacesOk,
         ReservedOk, UniqueSeqnos, Situation, IsInstalled;
    InstallKeepsFiles(c, d.v, d.next, outputs);
    Installed(d, d', c, outputs);
    SituationHolds(d, d', c);
  }

  /** Exactly when an install preserves reads of a user key: at every sequence number that is
      still readable the answer is the same, unless a dropped marker uncovers an older value. */
  lemma InstallPreservesReadsIff(maxFileSize: nat, d: Db, outputs: seq<File>, user: UserKey)
    requires Inv(d) && Enabled(maxFileSize, d, Install(outputs))
    ensures d.running.Some? && d.running.value.level + 1 < |d.v|
    ensures var d' := Apply(maxFileSize, d, Install(outputs)); var c := d.running.value;
            (forall s: nat :: s >= c.smallest ==> Answer(Get(d', user, s)) == Answer(Get(d, user, s)))
            <==> !Uncovers(d, c, user)
  {
    InstallSituation(maxFileSize, d, outputs);
    var d' := Apply(maxFileSize, d, Install(outputs));
    var c := d.running.value;
    hide Inv, Enabled, Apply, Get, Situation, All, InputEntries, LeftBelow, ObsoleteMarker, InputsOk;
    assert Uncovers(d, c, user) <==> UncoversIn(All(d), InputEntries(c), LeftBelow(d.v, c), c, user);
    forall s: nat ensures Finds(All(d), user, s, Get(d, user, s)) && Finds(All(d'), user, s, Get(d', user, s)) {
      GetFindsInv(d, user, s);
      GetFindsInv(d', user, s);
    }
    if Uncovers(d, c, user) {
      ReadLost(All(d), All(d'), InputEntries(c), LeftBelow(d.v, c), c, user, Get(d, user, c.smallest),
        Get(d', user, c.smallest));
    } else {
      forall s: nat | s >= c.smallest ensures Answer(Get(d', user, s)) == Answer(Get(d, user, s)) {
        ReadKept(All(d), All(d'), InputEntries(c), LeftBelow(d.v, c), c, user, s, Get(d, user, s), Get(d', user, s));
      }
    }
  }

  lemma NextFileContinues(files: seq<File>, inputs1: seq<File>, others: seq<File>, g: File, h: File, user: UserKey)
    requires AllFilesOk(files) && Disjoint(files) && g in inputs1 && g in files && h in files && h !in inputs1
    requires forall f :: f in inputs1 ==> f in others
    requires Apart(h, others) && Less(g.largest, h.smallest) && Covers(g, user) && Covers(h, user) && FileOk(g)
    ensures inputs1 != [] && ContinuesKey(h, LargestKey(inputs1))
  {
    SmallestToLargest(g);
    SmallestToLargest(h);
    var largest := LargestKey(inputs1);
    var last :| last in inputs1 && last.largest == largest;
    assert !Less(largest, g.largest);
    assert Less(last.largest, h.smallest);
  }

  /** An older entry left behind lies in a file that continues the inputs' last user key. */
  lemma OlderBelowContinues(v: seq<seq<File>>, c: Compaction, t: Entry, y: Entry)
    requires VersionOk(v) && UniqueSeqnos(EntriesFrom(v, 0)) && InputsOk(c, v) && BaseOk(c, v)
    requires t in InputEntries(c) && y in LeftBelow(v, c) && y.ik.user == t.ik.user && y.ik.seqno < t.ik.seqno
    ensures c.inputs1 != [] && exists h :: h in c.base[c.level + 1] && ContinuesKey(h, LargestKey(c.inputs1))
  {
    var l := c.level + 1;
    var g :| g in c.inputs0 + c.inputs1 && t in g.run;
    var h :| h in v[l] && h !in c.inputs1 && y in h.run;
    InputFacts(c, v);
    InputsAreBounded(c, v);
    FileAmongOk(c.inputs0 + c.inputs1, g);
    LeftFileIsOk(v, l, h);
    EntryCovers(g, t);
    EntryCovers(h, y);
    assert Apart(h, c.inputs0 + c.inputs1) && ClearOf(h, c.inputs0);
    assert h in c.base[l] || ClearOf(h, c.inputs0 + c.inputs1);
    assert AllFilesOk(v[l]) && Disjoint(v[l]);
    assert g in c.inputs1;
    hide VersionOk, InputsOk, BaseOk, Apart, ClearOf, AllFilesOk, Disjoint, Level0Ok, LeavesNewer, UniqueSeqnos,
         EntriesFrom;
    OlderIsLater(v[l], g, h, t, y);
    NextFileContinues(v[l], c.inputs1, c.inputs0 + c.inputs1, g, h, t.ik.user);
  }

  lemma OlderIsLater(files: seq<File>, g: File, h: File, t: Entry, y: Entry)
    requires AllFilesOk(files) && Disjoint(files) && g in files && h in files && g != h
    requires t in g.run && y in h.run && y.ik.user == t.ik.user && y.ik.seqno < t.ik.seqno
    ensures Less(g.largest, h.smallest)
  {
    DisjointOrders(files, g, h);
    SmallestToLargest(g);
    SmallestToLargest(h);
  }

  lemma UncoveringContinues(d: Db, c: Compaction, user: UserKey)
    requires VersionOk(d.v) && UniqueSeqnos(EntriesFrom(d.v, 0)) && UniqueSeqnos(All(d)) && InputsOk(c, d.v) &&
             BaseOk(c, d.v)
    requires c.level + 1 < |d.v| && c.level + 1 < |c.base| && Uncovers(d, c, user)
    ensures !NextLevelClosed(c)
  {
    hide VersionOk, InputsOk, BaseOk, UniqueSeqnos, EntriesFrom, InputEntries, LeftBelow, All;
    var t, y :|
      && IsNewest(All(d), user, c.smallest, t) && t in InputEntries(c)
      && ObsoleteMarker(c.base, c.level, c.smallest, t)
      && IsNewest(LeftBelow(d.v, c), user, c.smallest, y) && y.ik.typ.Value?;
    BelowIsStored(d, c, y);
    DifferentSeqnos(All(d), t, y);
    OlderBelowContinues(d.v, c, t, y);
  }

  /** The check that is missing for level + 1 would be enough: a compaction whose next-level
      inputs end at a user-key boundary uncovers nothing. */
  lemma ClosedNextLevelIsSafe(d: Db, user: UserKey)
    requires Inv(d) && d.running.Some? && d.running.value.level + 1 < |d.v| && |d.running.value.base| == |d.v|
    requires NextLevelClosed(d.running.value)
    ensures !Uncovers(d, d.running.value, user)
  {
    FilesAreUnique(d);
    StoredIsLogged(d);
    assert InputsOk(d.running.value, d.v) && BaseOk(d.running.value, d.v);
    hide Inv, VersionOk, InputsOk, BaseOk, UniqueSeqnos, Uncovers, NextLevelClosed;
    if Uncovers(d, d.running.value, user) {
      UncoveringContinues(d, d.running.value, user);
    }
  }

  lemma DifferentSeqnos(es: set<Entry>, t: Entry, y: Entry)
    requires UniqueSeqnos(es) && t in es && y in es && t != y
    ensures t.ik.seqno != y.ik.seqno
  {
  }

  lemma BelowIsStored(d: Db, c: Compaction, y: Entry)
    requires c.level + 1 < |d.v| && y in LeftBelow(d.v, c)
    ensures y in All(d)
  {
    var f :| f in d.v[c.level + 1] && f !in c.inputs1 && y in f.run;
    StoredInFile(d.v, c.level + 1, f, y);
  }
}
