/** Every step keeps the invariant; every step but an install keeps what reads return. */
module LsmSteps {
  import opened Keys
  import opened Versions
  import opened Selection
  import opened Lsm

  // ------------------------------------------------------------------ reads are determined by the stored entries

  lemma StoredIsUnique(es: set<Entry>, log: seq<Entry>)
    requires Chronological(log) && es <= Elems(log)
    ensures UniqueSeqnos(es)
  {
    forall x, y | x in es && y in es && x.ik.seqno == y.ik.seqno ensures x == y {
      var i :| 0 <= i < |log| && log[i] == x;
      var j :| 0 <= j < |log| && log[j] == y;
    }
  }

  /** The early-stopping search through memtables and levels finds the newest visible entry. */
  lemma GetFinds(d: Db, user: UserKey, s: nat)
    requires PlacesOk(d.mem, ImmRun(d), d.v, d.log) && VersionOk(d.v)
    ensures Finds(All(d), user, s, Get(d, user, s))
  {
    hide VersionOk, RunGet, GetFrom, Elems, EntriesFrom, Finds, Newer;
    var mem, imm, files := Elems(d.mem), Elems(ImmRun(d)), EntriesFrom(d.v, 0);
    RunGetFinds(d.mem, user, s);
    RunGetFinds(ImmRun(d), user, s);
    GetFromFinds(d.v, 0, user, s);
    NewerMiddle(mem, imm, files);
    var b := RunGet(ImmRun(d), user, s);
    EarlyStop(imm, files, user, s, b, GetFrom(d.v, 0, user, s));
    EarlyStop(mem, imm + files, user, s, RunGet(d.mem, user, s), if b.Some? then b else GetFrom(d.v, 0, user, s));
    assert All(d) == mem + (imm + files);
  }

  lemma NewerMiddle(a: set<Entry>, b: set<Entry>, c: set<Entry>)
    requires Newer(a, b) && Newer(a + b, c)
    ensures Newer(b, c) && Newer(a, b + c)
  {
  }

  lemma FindsIsUnique(es: set<Entry>, user: UserKey, s: nat, a: Option<Entry>, b: Option<Entry>)
    requires UniqueSeqnos(es) && Finds(es, user, s, a) && Finds(es, user, s, b)
    ensures a == b
  {
  }

  /** Moving entries around without losing or gaining any changes no read. */
  lemma SameEntriesSameReads(d: Db, d': Db)
    requires Inv(d) && Inv(d')
    requires All(d) == All(d') && d.log == d'.log && d.floor == d'.floor
    requires ReadsOk(d)
    ensures ReadsOk(d')
  {
    StoredIsUnique(All(d), d.log);
    forall user, s: nat | s >= d.floor
      ensures Answer(Get(d', user, s)) == Lookup(Replay(d'.log, s), user)
    {
      GetFinds(d, user, s);
      GetFinds(d', user, s);
      FindsIsUnique(All(d), user, s, Get(d, user, s), Get(d', user, s));
      assert Answer(Get(d, user, s)) == Lookup(Replay(d.log, s), user);
    }
  }

  // ------------------------------------------------------------------ Insert

  lemma MemInsertHolds(mem: Run, e: Entry)
    ensures Elems(MemInsert(mem, e)) == Elems(mem) + {e}
  {
    var n := LowerBound(mem, e.ik);
    assert mem == mem[..n] + mem[n..];
  }

  lemma MemInsertSorts(mem: Run, e: Entry)
    requires Sorted(mem) && forall x :: x in mem ==> x.ik != e.ik
    ensures Sorted(MemInsert(mem, e))
  {
    var n, r := LowerBound(mem, e.ik), MemInsert(mem, e);
    forall i | n <= i < |mem| ensures Less(e.ik, mem[i].ik) {
      assert mem[n] in mem;
      LessComparesTrailers(e.ik, mem[n].ik);
    }
    forall i, j | 0 <= i < j < |r| ensures Less(r[i].ik, r[j].ik) {
      var a := if i < n then mem[i] else if i == n then e else mem[i - 1];
      var b := if j < n then mem[j] else if j == n then e else mem[j - 1];
      assert r[i] == a && r[j] == b;
    }
  }

  /** The entry an insert adds is newer than everything stored. */
  lemma InsertIsNewest(es: set<Entry>, log: seq<Entry>, applied: nat, last: nat, e: Entry)
    requires LogOk(log, applied, last) && es <= Elems(log) && e.ik.seqno == applied + 1
    ensures forall x :: x in es ==> x.ik.seqno < e.ik.seqno
    ensures Chronological(log + [e])
    ensures es + {e} <= Elems(log + [e])
  {
    forall i, j | 0 <= i < j < |log + [e]| ensures (log + [e])[i].ik.seqno < (log + [e])[j].ik.seqno {
      assert log[i] in log;
    }
  }

  lemma InsertKeepsPlaces(mem: Run, imm: Run, v: seq<seq<File>>, log: seq<Entry>, applied: nat, last: nat, e: Entry)
    requires LogOk(log, applied, last) && PlacesOk(mem, imm, v, log)
    requires e.ik.seqno == applied + 1 < MAX_SEQUENCE
    ensures PlacesOk(MemInsert(mem, e), imm, v, log + [e])
    ensures LogOk(log + [e], applied + 1, last)
    ensures Stored(MemInsert(mem, e), imm, v) == Stored(mem, imm, v) + {e}
    ensures forall x :: x in Stored(mem, imm, v) ==> x.ik.seqno < e.ik.seqno
  {
    hide EntriesFrom, MemInsert, Chronological, Elems;
    InsertIsNewest(Stored(mem, imm, v), log, applied, last, e);
    MemInsertHolds(mem, e);
    assert forall x :: x in mem ==> x in Stored(mem, imm, v) by { ElemsHold(mem); }
    MemInsertSorts(mem, e);
  }

  lemma ElemsHold(r: Run)
    ensures forall x :: x in r <==> x in Elems(r)
  {
  }

  lemma InsertKeepsInv(maxFileSize: nat, d: Db, user: UserKey, typ: ValueType, value: string)
    requires Inv(d) && Enabled(maxFileSize, d, Insert(user, typ, value))
    ensures Inv(Apply(maxFileSize, d, Insert(user, typ, value)))
    ensures All(Apply(maxFileSize, d, Insert(user, typ, value))) ==
            All(d) + {Entry(IKey(user, d.applied + 1, typ), value)}
    ensures forall x :: x in All(d) ==> x.ik.seqno < d.applied + 1
  {
    hide PlacesOk, LogOk, FilesOk, SnapshotsOk, InputsOk, BaseOk, SmallestOk, ReservedOk, Stored, MemInsert;
    var e := Entry(IKey(user, d.applied + 1, typ), value);
    InsertKeepsPlaces(d.mem, ImmRun(d), d.v, d.log, d.applied, d.last, e);
  }

  lemma StoredIsLogged(d: Db)
    requires Inv(d)
    ensures All(d) <= Elems(d.log) && UniqueSeqnos(All(d))
  {
    StoredIsUnique(All(d), d.log);
  }

  lemma FindsAfterInsert(es: set<Entry>, e: Entry, user: UserKey, s: nat, a: Option<Entry>)
    requires Finds(es, user, s, a)
    requires forall x :: x in es ==> x.ik.seqno < e.ik.seqno
    ensures Finds(es + {e}, user, s, if user == e.ik.user && e.ik.seqno <= s then Some(e) else a)
  {
  }

  lemma InsertKeepsReads(maxFileSize: nat, d: Db, user: UserKey, typ: ValueType, value: string)
    requires Inv(d) && ReadsOk(d) && Enabled(maxFileSize, d, Insert(user, typ, value))
    ensures ReadsOk(Apply(maxFileSize, d, Insert(user, typ, value)))
  {
    var d' := Apply(maxFileSize, d, Insert(user, typ, value));
    var e := Entry(IKey(user, d.applied + 1, typ), value);
    InsertKeepsInv(maxFileSize, d, user, typ, value);
    StoredIsLogged(d');
    hide Inv, Enabled, All, Get, Replay;
    forall u, s: nat | s >= d.floor
      ensures Answer(Get(d', u, s)) == Lookup(Replay(d'.log, s), u)
    {
      GetFindsInv(d, u, s);
      GetFindsInv(d', u, s);
      FindsAfterInsert(All(d), e, u, s, Get(d, u, s));
      FindsIsUnique(All(d'), u, s, if u == user && e.ik.seqno <= s then Some(e) else Get(d, u, s), Get(d', u, s));
      ReplayAppends(d.log, e, u, s);
      assert Answer(Get(d, u, s)) == Lookup(Replay(d.log, s), u);
    }
  }

  lemma GetFindsInv(d: Db, user: UserKey, s: nat)
    requires Inv(d)
    ensures Finds(All(d), user, s, Get(d, user, s))
  {
    GetFinds(d, user, s);
  }

  // ------------------------------------------------------------------ steps that touch no file

  lemma SwitchKeepsInv(maxFileSize: nat, d: Db)
    requires Inv(d) && Enabled(maxFileSize, d, Switch)
    ensures Inv(Apply(maxFileSize, d, Switch))
    ensures All(Apply(maxFileSize, d, Switch)) == All(d)
  {
    hide FilesOk, SnapshotsOk, InputsOk, BaseOk, SmallestOk, ReservedOk, LogOk, EntriesFrom;
  }

  lemma PublishKeepsInv(maxFileSize: nat, d: Db)
    requires Inv(d)
    requires Enabled(maxFileSize, d, Publish)
    ensures Inv(Apply(maxFileSize, d, Publish))
  {
    hide FilesOk, InputsOk, BaseOk, ReservedOk, PlacesOk, Chronological;
  }

  lemma TakeSnapshotKeepsInv(maxFileSize: nat, d: Db)
    requires Inv(d)
    requires Enabled(maxFileSize, d, TakeSnapshot)
    ensures Inv(Apply(maxFileSize, d, TakeSnapshot))
  {
    hide FilesOk, InputsOk, BaseOk, ReservedOk, PlacesOk, LogOk;
  }

  lemma ReleaseSnapshotKeepsInv(maxFileSize: nat, d: Db, i: nat)
    requires Inv(d)
    requires Enabled(maxFileSize, d, ReleaseSnapshot(i))
    ensures Inv(Apply(maxFileSize, d, ReleaseSnapshot(i)))
  {
    hide FilesOk, InputsOk, BaseOk, ReservedOk, PlacesOk, LogOk;
    var s := d.snapshots[..i] + d.snapshots[i + 1..];
    assert forall j :: 0 <= j < |s| ==> s[j] == d.snapshots[if j < i then j else j + 1];
  }

  lemma ReserveKeepsInv(maxFileSize: nat, d: Db)
    requires Inv(d)
    requires Enabled(maxFileSize, d, Reserve)
    ensures Inv(Apply(maxFileSize, d, Reserve))
  {
    hide VersionOk, LevelsInOrder, NumbersUnique, PlacesOk, LogOk, SnapshotsOk, GapFree, LeavesNewer, Apart, ClearOf;
    var d' := Apply(maxFileSize, d, Reserve);
    var c, c' := d.running.value, d'.running.value;
    assert InputsOk(c', d'.v) && BaseOk(c', d'.v) && SmallestOk(c', d'.floor, d'.last, d'.snapshots);
    assert FilesOk(d'.v, d'.next);
  }
}
