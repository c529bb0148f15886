/** What holding a snapshot promises, over whole runs (db/snapshot.h, db/db_impl.cc GetSnapshot, ReleaseSnapshot). */
module LsmSnapshots {
  import opened Keys
  import opened Lsm
  import opened CompactionReads
  import opened LsmRuns

  /** Where a snapshot stands in the list after an action, or none once it is released. */
  function PlaceAfter(place: Option<nat>, a: Action): Option<nat> {
    if place.None? || !a.ReleaseSnapshot? then place
    else if a.index == place.value then None
    else if a.index < place.value then Some(place.value - 1)
    else place
  }

  /** Where the snapshot taken by action `i` stands in state `n`. */
  function PlaceOf(states: seq<Db>, actions: seq<Action>, i: nat, n: nat): Option<nat>
    requires i < n <= |actions| < |states|
  {
    if n == i + 1 then Some(|states[i].snapshots|) else PlaceAfter(PlaceOf(states, actions, i, n - 1), actions[n - 1])
  }

  lemma NthStep(maxFileSize: nat, states: seq<Db>, actions: seq<Action>, n: nat)
    requires IsRun(maxFileSize, states, actions) && n < |actions|
    ensures |states| == |actions| + 1
    ensures Enabled(maxFileSize, states[n], actions[n]) && states[n + 1] == Apply(maxFileSize, states[n], actions[n])
  {
    hide Enabled, Apply;
  }

  /** What an action does to the list of snapshots. */
  lemma ListAfter(maxFileSize: nat, d: Db, a: Action)
    requires Enabled(maxFileSize, d, a)
    ensures var s := Apply(maxFileSize, d, a).snapshots;
            if a.TakeSnapshot? then s == d.snapshots + [d.last]
            else if a.ReleaseSnapshot? then |s| + 1 == |d.snapshots| && a.index < |d.snapshots|
            else s == d.snapshots
  {
    hide ApplyEdit, MemInsert, MergedInputs;
  }

  /** Every other snapshot survives a release. */
  lemma OthersStay(maxFileSize: nat, d: Db, a: Action, p: nat)
    requires Enabled(maxFileSize, d, a) && p < |d.snapshots|
    ensures var place := PlaceAfter(Some(p), a);
            place.Some? ==>
              place.value < |Apply(maxFileSize, d, a).snapshots| &&
              Apply(maxFileSize, d, a).snapshots[place.value] == d.snapshots[p]
  {
    ListAfter(maxFileSize, d, a);
    hide ApplyEdit, MemInsert, MergedInputs;
  }

  /** A snapshot stays in the list, with the number it was taken at, until it is released itself. */
  lemma {:induction false} SnapshotStays(maxFileSize: nat, states: seq<Db>, actions: seq<Action>, i: nat, n: nat)
    requires IsRun(maxFileSize, states, actions) && i < n <= |actions| && actions[i].TakeSnapshot?
    ensures |actions| < |states|
    ensures var place := PlaceOf(states, actions, i, n);
            place.Some? ==> place.value < |states[n].snapshots| && states[n].snapshots[place.value] == states[i].last
  {
    hide IsRun, Enabled, Apply;
    NthStep(maxFileSize, states, actions, n - 1);
    if n == i + 1 {
      ListAfter(maxFileSize, states[i], actions[i]);
    } else {
      SnapshotStays(maxFileSize, states, actions, i, n - 1);
      var place := PlaceOf(states, actions, i, n - 1);
      if place.Some? { OthersStay(maxFileSize, states[n - 1], actions[n - 1], place.value); }
    }
  }

  /** Action `k` releases the snapshot taken by action `i`. */
  ghost predicate Releases(states: seq<Db>, actions: seq<Action>, i: nat, k: nat) {
    && i < k < |actions| < |states|
    && PlaceOf(states, actions, i, k).Some?
    && actions[k] == ReleaseSnapshot(PlaceOf(states, actions, i, k).value)
  }

  /** Nothing but its own release takes a snapshot off the list. */
  lemma {:induction false} OnlyItsReleaseEndsIt(states: seq<Db>, actions: seq<Action>, i: nat, n: nat)
    requires i < n <= |actions| < |states|
    ensures PlaceOf(states, actions, i, n).None? <==> exists k: nat :: k < n && Releases(states, actions, i, k)
  {
    if n > i + 1 {
      OnlyItsReleaseEndsIt(states, actions, i, n - 1);
      if k: nat :| k < n - 1 && Releases(states, actions, i, k) {
        assert PlaceOf(states, actions, i, n - 1).None?;
      } else if Releases(states, actions, i, n - 1) {
        assert PlaceOf(states, actions, i, n).None?;
      }
    }
  }

  // ------------------------------------------------------------------ what is read at it

  lemma LogAfter(maxFileSize: nat, d: Db, a: Action, s: nat)
    requires Enabled(maxFileSize, d, a) && s <= d.applied
    ensures var d' := Apply(maxFileSize, d, a);
            d.applied <= d'.applied && forall user :: Lookup(Replay(d'.log, s), user) == Lookup(Replay(d.log, s), user)
  {
    if a.Insert? {
      var e := Entry(IKey(a.user, d.applied + 1, a.typ), a.value);
      assert (d.log + [e])[..|d.log|] == d.log;
    }
    hide ApplyEdit, MemInsert, MergedInputs;
  }

  /** Later writes do not change what replaying up to a number gives. */
  lemma {:induction false} ReplayStays(maxFileSize: nat, states: seq<Db>, actions: seq<Action>, i: nat, n: nat, s: nat)
    requires IsRun(maxFileSize, states, actions) && i <= n < |states| && s <= states[i].applied
    ensures s <= states[n].applied
    ensures forall user :: Lookup(Replay(states[n].log, s), user) == Lookup(Replay(states[i].log, s), user)
  {
    hide Enabled, Apply, Replay, Lookup;
    if i < n {
      ReplayStays(maxFileSize, states, actions, i, n - 1, s);
      NthStep(maxFileSize, states, actions, n - 1);
      LogAfter(maxFileSize, states[n - 1], actions[n - 1], s);
    }
  }

  lemma LastIsApplied(d: Db)
    requires Inv(d)
    ensures d.last <= d.applied
  {
    hide FilesOk, PlacesOk, SnapshotsOk;
  }

  /** From the moment a snapshot is taken until it is released, every read at it returns what the writes up to that
      moment give, whatever is written, flushed or compacted in between; under the same condition as for all reads. */
  lemma SnapshotReadsStay(maxFileSize: nat, states: seq<Db>, actions: seq<Action>, i: nat, n: nat, user: UserKey)
    requires IsRun(maxFileSize, states, actions) && i < n <= |actions| && actions[i].TakeSnapshot?
    requires |actions| < |states| && PlaceOf(states, actions, i, n).Some?
    requires forall k :: 0 <= k < n && actions[k].Install? ==>
               && states[k].running.Some?
               && states[k].running.value.level + 1 < |states[k].running.value.base|
               && NextLevelClosed(states[k].running.value)
    ensures Answer(Get(states[n], user, states[i].last)) == Lookup(Replay(states[i].log, states[i].last), user)
  {
    hide Get, Replay, Lookup, Enabled, Apply, Inv, NextLevelClosed;
    var s := states[i].last;
    SnapshotStays(maxFileSize, states, actions, i, n);
    assert s in states[n].snapshots;
    ClientReadsReplay(maxFileSize, states, actions, n, user, s);
    RunsKeepInv(maxFileSize, states, actions, i);
    LastIsApplied(states[i]);
    ReplayStays(maxFileSize, states, actions, i, n, s);
  }
}
