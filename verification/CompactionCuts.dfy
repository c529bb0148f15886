/** When a compaction cuts its output for the sake of the level below (db/version_set.cc, Compaction::ShouldStopBefore):
    as soon as the files of that level passed since the last cut are too large, and never between two versions of one
    user key. */
module CompactionCuts {
  import opened Keys
  import opened Versions
  import opened Picking
  import PickingRules

  class StopRule {
    const grandparents: seq<File>
    const maxOverlap: nat
    var grandparentIndex: nat
    var seenKey: bool
    var overlappedBytes: nat

    // The key last asked about, and the first file below that counts against the current output.
    ghost var last: Option<IKey>
    ghost var since: nat

    ghost predicate Valid()
      reads this
    {
      && since <= grandparentIndex <= |grandparents| && (seenKey <==> last.Some?)
      && overlappedBytes == TotalFileSize(grandparents[since..grandparentIndex]) <= maxOverlap
      && (last.None? ==> since == grandparentIndex == 0)
      && (last.Some? && grandparentIndex < |grandparents| ==> !Less(grandparents[grandparentIndex].largest, last.value))
    }

    constructor (grandparents: seq<File>, maxOverlap: nat)
      ensures Valid() && last == None && since == grandparentIndex == 0 && this.grandparents == grandparents &&
              this.maxOverlap == maxOverlap
    {
      this.grandparents, this.maxOverlap := grandparents, maxOverlap;
      grandparentIndex, seenKey, overlappedBytes, last, since := 0, false, 0, None, 0;
      new;
      PickingRules.TotalOfNone();
      assert grandparents[0..0] == [];
    }

    /** The output is cut before `key` exactly when the files of the level below that end between the first key of the
        output and `key` are together larger than the limit; the files passed by the very first key do not count. */
    method ShouldStopBefore(key: IKey) returns (stop: bool)
      requires Valid()
      modifies this
      ensures Valid() && last == Some(key)
      ensures old(grandparentIndex) <= grandparentIndex
      ensures forall i :: old(grandparentIndex) <= i < grandparentIndex ==> Less(grandparents[i].largest, key)
      ensures grandparentIndex < |grandparents| ==> !Less(grandparents[grandparentIndex].largest, key)
      ensures stop <==> old(last).Some? && TotalFileSize(grandparents[old(since)..grandparentIndex]) > maxOverlap
      ensures since == if stop || old(last).None? then grandparentIndex else old(since)
      ensures stop ==> old(last).Some? && exists g :: g in grandparents && EndsBetween(g, old(last).value, key)
    {
      hide TotalFileSize;
      ghost var start, from := grandparentIndex, since;
      while grandparentIndex < |grandparents| && Less(grandparents[grandparentIndex].largest, key)
        invariant start <= grandparentIndex <= |grandparents| && seenKey == old(seenKey) && last == old(last)
        invariant since == from <= start
        invariant if seenKey then overlappedBytes == TotalFileSize(grandparents[from..grandparentIndex])
                  else overlappedBytes == old(overlappedBytes)
        invariant forall i :: start <= i < grandparentIndex ==> Less(grandparents[i].largest, key)
      {
        if seenKey {
          PickingRules.TotalGrows(grandparents, from, grandparentIndex);
          overlappedBytes := overlappedBytes + grandparents[grandparentIndex].size;
        }
        grandparentIndex := grandparentIndex + 1;
      }
      PickingRules.TotalOfNone();
      assert grandparents[grandparentIndex..grandparentIndex] == [];
      if !seenKey {
        since := grandparentIndex;
      }
      seenKey := true;
      stop := overlappedBytes > maxOverlap;
      if stop {
        assert EndsBetween(grandparents[start], last.value, key);
        // The next output starts with nothing overlapped.
        overlappedBytes := 0;
        since := grandparentIndex;
      }
      last := Some(key);
    }
  }

  predicate EndsBetween(g: File, before: IKey, key: IKey) {
    !Less(g.largest, before) && Less(g.largest, key)
  }

  /** In a version no file two levels down ends between two versions of one user key: what lies deeper is older
      than both. */
  lemma GrandparentsNeverSplit(v: seq<seq<File>>, level: nat, g: File, x: Entry, y: Entry)
    requires VersionOk(v) && level + 2 < |v| && g in v[level + 2]
    requires x.ik.user == y.ik.user
    requires y in LevelEntries(v[level]) + LevelEntries(v[level + 1])
    ensures !EndsBetween(g, x.ik, y.ik)
  {
    assert FileOk(g);
    var e := g.run[|g.run| - 1];
    assert e in g.run && e in LevelEntries(v[level + 2]);
    assert Newer(LevelEntries(v[level]), LevelEntries(v[level + 2])) &&
           Newer(LevelEntries(v[level + 1]), LevelEntries(v[level + 2]));
    assert e.ik.user == y.ik.user ==> y.ik.seqno > e.ik.seqno;
  }
}
