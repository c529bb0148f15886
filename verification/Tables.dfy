/** Tables as blocks of entries: what index keys a table being built gets, and how a key is looked up in it
    (table/table_builder.cc, table/table.cc).  A block handle is modelled by the block's number.  */
module Tables {
  import opened Keys
  import opened Separators
  import opened Ranks
  import opened TwoLevel

  /** What FindShortestSeparator may return for the last key of a block and the first key of the
      next: the key itself, or a key strictly between the two user keys. */
  predicate SeparatorFor(last: IKey, sep: IKey, limit: IKey) {
    sep == last || (last.user < sep.user < limit.user)
  }

  /** What FindShortSuccessor may return for the last key of a table. */
  predicate SuccessorFor(last: IKey, sep: IKey) {
    sep == last || last.user < sep.user
  }

  function Last(b: Block): IKey
    requires b.run != []
  {
    b.run[|b.run| - 1].ik
  }

  /** The index key of block `i` suits the block after it, or the entries of `next`. */
  ghost predicate TightAt(blocks: seq<Block>, i: nat, next: Run)
    requires i < |blocks|
  {
    && blocks[i].run != []
    && if i + 1 < |blocks| then blocks[i + 1].run != [] &&
       SeparatorFor(Last(blocks[i]), blocks[i].sep, blocks[i + 1].run[0].ik)
       else next != [] ==> SeparatorFor(Last(blocks[i]), blocks[i].sep, next[0].ik)
  }

  ghost predicate Tight(blocks: seq<Block>, next: Run) {
    forall i :: 0 <= i < |blocks| ==> TightAt(blocks, i, next)
  }

  /** A finished table: every index key is its block's last key, or lies strictly between the user
      keys around it. */
  ghost predicate TightlySeparated(blocks: seq<Block>) {
    && Tight(blocks, [])
    && (blocks != [] ==> var b := blocks[|blocks| - 1]; b.run != [] && SuccessorFor(Last(b), b.sep))
  }

  // ------------------------------------------------------------------ a table being built

  /** The blocks whose index entry is written, the entries after them, and all entries added. */
  ghost predicate Growing(blocks: seq<Block>, next: Run, added: Run) {
    Sorted(added) && Flat(blocks) + next == added && (blocks != [] ==> next != []) && Tight(blocks, next)
  }

  lemma NothingAdded()
    ensures Growing([], [], [])
  {
  }

  /** One more entry in the open block. */
  lemma BlockGrows(blocks: seq<Block>, next: Run, added: Run, e: Entry)
    requires Growing(blocks, next, added) && (added != [] ==> Less(added[|added| - 1].ik, e.ik))
    ensures Growing(blocks, next + [e], added + [e])
  {
    hide Flat, Sorted, Tight;
    AppendSorts(added, e);
    TightExtends(blocks, next, e);
    assert Flat(blocks) + (next + [e]) == Flat(blocks) + next + [e];
  }

  lemma NextEndsAdded(blocks: seq<Block>, next: Run, added: Run)
    requires Growing(blocks, next, added) && next != []
    ensures added != [] && next[|next| - 1] == added[|added| - 1]
  {
    hide Flat, Sorted, Tight;
  }

  /** The index entry of the last block is written when the next key is known. */
  lemma IndexGrows(blocks: seq<Block>, next: Run, added: Run, sep: IKey, e: Entry)
    requires Growing(blocks, next, added) && next != [] && added != [] && Less(added[|added| - 1].ik, e.ik)
    requires SeparatorFor(added[|added| - 1].ik, sep, e.ik)
    ensures Growing(blocks + [Block(sep, next)], [e], added + [e])
  {
    hide Flat, Sorted, Tight, SeparatorFor;
    NextEndsAdded(blocks, next, added);
    AppendSorts(added, e);
    TightGrows(blocks, Block(sep, next), [e]);
    FlatGrows(blocks, Block(sep, next));
  }

  /** The last index entry is written when the table is finished. */
  lemma TableCloses(blocks: seq<Block>, next: Run, added: Run, sep: IKey)
    requires Growing(blocks, next, added) && next != [] && added != []
    requires SuccessorFor(added[|added| - 1].ik, sep)
    ensures TightlySeparated(blocks + [Block(sep, next)]) && Flat(blocks + [Block(sep, next)]) == added
  {
    hide Flat, Sorted, Tight, SuccessorFor;
    NextEndsAdded(blocks, next, added);
    TightGrows(blocks, Block(sep, next), []);
    FlatGrows(blocks, Block(sep, next));
  }

  /** Index keys ascend. */
  lemma IndexAscends(blocks: seq<Block>, next: Run, added: Run, sep: IKey)
    requires Growing(blocks, next, added) && blocks != [] && next != [] && added != []
    requires SuccessorFor(added[|added| - 1].ik, sep)
    ensures Less(blocks[|blocks| - 1].sep, sep)
  {
    NextEndsAdded(blocks, next, added);
    var i, n := |blocks| - 1, |Flat(blocks)|;
    assert TightAt(blocks, i, next);
    FlatEnds(blocks);
    assert next[0] == added[n] && Last(blocks[i]) == added[n - 1].ik;
    hide Flat, Tight, TightAt;
    assert Less(added[n - 1].ik, added[n].ik);
    assert n < |added| - 1 ==> Less(added[n].ik, added[|added| - 1].ik);
  }

  lemma FlatEnds(blocks: seq<Block>)
    requires blocks != [] && blocks[|blocks| - 1].run != []
    ensures Flat(blocks) != [] && Flat(blocks)[|Flat(blocks)| - 1].ik == Last(blocks[|blocks| - 1])
  {
  }

  /** What the byte-string separator means in the order of the model. */
  lemma SeparatorFits(last: Key, limit: Key, sep: Key)
    requires sep == last || (Before(last.user, sep.user) && Before(sep.user, limit.user))
    ensures SeparatorFor(Unpacked(last), Unpacked(sep), Unpacked(limit))
  {
    RankEmbeds(last.user, sep.user);
    RankEmbeds(sep.user, limit.user);
  }

  lemma SuccessorFits(last: Key, sep: Key)
    requires sep == last || Before(last.user, sep.user)
    ensures SuccessorFor(Unpacked(last), Unpacked(sep))
  {
    RankEmbeds(last.user, sep.user);
  }

  lemma FlatGrows(blocks: seq<Block>, b: Block)
    ensures Flat(blocks + [b]) == Flat(blocks) + b.run
  {
    assert (blocks + [b])[..|blocks|] == blocks;
  }

  lemma AppendSorts(r: Run, e: Entry)
    requires Sorted(r) && (r != [] ==> Less(r[|r| - 1].ik, e.ik))
    ensures Sorted(r + [e])
  {
  }

  lemma TightGrows(blocks: seq<Block>, b: Block, next: Run)
    requires Tight(blocks, b.run) && b.run != []
    requires next != [] ==> SeparatorFor(Last(b), b.sep, next[0].ik)
    ensures Tight(blocks + [b], next)
  {
    forall i | 0 <= i < |blocks + [b]| ensures TightAt(blocks + [b], i, next) {
      if i < |blocks| { assert TightAt(blocks, i, b.run); }
    }
  }

  lemma TightExtends(blocks: seq<Block>, next: Run, e: Entry)
    requires Tight(blocks, next) && (blocks != [] ==> next != [])
    ensures Tight(blocks, next + [e])
  {
    forall i | 0 <= i < |blocks| ensures TightAt(blocks, i, next + [e]) {
      assert TightAt(blocks, i, next);
    }
  }

  /** In a sorted flat run, earlier blocks hold smaller keys. */
  lemma BlocksAscend(blocks: seq<Block>, i: nat, k: nat, j: nat, n: nat)
    requires Sorted(Flat(blocks)) && i < |blocks| && j < |blocks| && k < |blocks[i].run| && n < |blocks[j].run|
    requires i < j || (i == j && k < n)
    ensures Less(blocks[i].run[k].ik, blocks[j].run[n].ik)
  {
    FlatAt(blocks, i, k);
    FlatAt(blocks, j, n);
    if i < j {
      OffsetStep(blocks, i);
      OffsetsGrow(blocks, i + 1, j);
    }
  }

  lemma EntryBelow(blocks: seq<Block>, i: nat, e: Entry)
    requires TightlySeparated(blocks) && Sorted(Flat(blocks)) && i < |blocks| && e in blocks[i].run
    ensures blocks[i].run != [] && !Less(Last(blocks[i]), e.ik)
  {
    hide TightlySeparated, Flat;
    var k :| 0 <= k < |blocks[i].run| && blocks[i].run[k] == e;
    if k + 1 < |blocks[i].run| { BlocksAscend(blocks, i, k, i, |blocks[i].run| - 1); }
  }

  lemma FirstOfBlock(blocks: seq<Block>, j: nat, e: Entry)
    requires Sorted(Flat(blocks)) && j < |blocks| && e in blocks[j].run
    ensures !Less(e.ik, blocks[j].run[0].ik)
  {
    hide Flat;
    var n :| 0 <= n < |blocks[j].run| && blocks[j].run[n] == e;
    if n > 0 { BlocksAscend(blocks, j, 0, j, n); }
  }

  lemma EntryAbove(blocks: seq<Block>, i: nat, j: nat, e: Entry)
    requires TightlySeparated(blocks) && Sorted(Flat(blocks)) && i < j < |blocks| && e in blocks[j].run
    ensures blocks[i].run != [] && blocks[i + 1].run != [] && !Less(e.ik, blocks[i + 1].run[0].ik)
    ensures Less(Last(blocks[i]), blocks[i + 1].run[0].ik)
  {
    hide TightlySeparated, Flat, Sorted;
    SepOf(blocks, i);
    FirstOfBlock(blocks, j, e);
    BlocksAscend(blocks, i, |blocks[i].run| - 1, i + 1, 0);
    if j > i + 1 {
      BlocksAscend(blocks, i + 1, 0, j, 0);
    }
  }

  lemma SepOf(blocks: seq<Block>, i: nat)
    requires TightlySeparated(blocks) && i < |blocks|
    ensures blocks[i].run != [] && SuccessorFor(Last(blocks[i]), blocks[i].sep)
    ensures i + 1 < |blocks| ==> blocks[i + 1].run != []
    ensures i + 1 < |blocks| ==> SeparatorFor(Last(blocks[i]), blocks[i].sep, blocks[i + 1].run[0].ik)
  {
    assert TightAt(blocks, i, []);
  }

  lemma BlockIsSorted(blocks: seq<Block>, i: nat)
    requires Sorted(Flat(blocks)) && i < |blocks|
    ensures Sorted(blocks[i].run)
  {
    hide Flat;
    var r := blocks[i].run;
    forall k, n | 0 <= k < n < |r| ensures Less(r[k].ik, r[n].ik) { BlocksAscend(blocks, i, k, i, n); }
  }

  lemma TightIsSeparated(blocks: seq<Block>)
    requires TightlySeparated(blocks) && Sorted(Flat(blocks))
    ensures Separated(blocks)
  {
    hide TightlySeparated, Flat, Sorted;
    forall b | b in blocks ensures Sorted(b.run) {
      var i :| 0 <= i < |blocks| && blocks[i] == b;
      BlockIsSorted(blocks, i);
    }
    forall i, e | 0 <= i < |blocks| && e in blocks[i].run ensures !Less(blocks[i].sep, e.ik) {
      EntryBelow(blocks, i, e);
      SepOf(blocks, i);
    }
    forall i, j, e | 0 <= i < j < |blocks| && e in blocks[j].run ensures Less(blocks[i].sep, e.ik) {
      EntryAbove(blocks, i, j, e);
      SepOf(blocks, i);
    }
  }

  // ------------------------------------------------------------------ Table::InternalGet

  /** A filter that never denies a user key held by a block. */
  ghost predicate NoFalseNegatives(blocks: seq<Block>, mayMatch: (nat, UserKey) -> bool) {
    forall i, e :: 0 <= i < |blocks| && e in blocks[i].run ==> mayMatch(i, e.ik.user)
  }

  /** What a lookup through the index, the filter and one block comes to. */
  function BlockGet(blocks: seq<Block>, mayMatch: (nat, UserKey) -> bool, user: UserKey, s: nat): Option<Entry> {
    var k := LookupKey(user, s);
    var i := LowerBound(IndexRun(blocks), k);
    if i < |blocks| && mayMatch(i, user) && LowerBound(blocks[i].run, k) < |blocks[i].run|
    then Some(blocks[i].run[LowerBound(blocks[i].run, k)]) else None
  }

  /** Looking in one block finds the sought user key's entry exactly when the table has it. */
  lemma BlockGetIsFlat(blocks: seq<Block>, mayMatch: (nat, UserKey) -> bool, user: UserKey, s: nat)
    requires TightlySeparated(blocks) && Sorted(Flat(blocks)) && NoFalseNegatives(blocks, mayMatch)
    ensures var found := BlockGet(blocks, mayMatch, user, s);
            (if found.Some? && found.value.ik.user == user then found else None) == RunGet(Flat(blocks), user, s)
  {
    hide Separated, TightlySeparated, NoFalseNegatives, Flat, LowerBound, IndexRun, Sorted;
    TightIsSeparated(blocks);
    var k := LookupKey(user, s);
    var i := LowerBound(IndexRun(blocks), k);
    TwoLevelSeek(blocks, k);
    OneBlockSuffices(blocks, mayMatch, user, s);
    if i < |blocks| && mayMatch(i, user) && LowerBound(blocks[i].run, k) < |blocks[i].run| {
      FlatAt(blocks, i, LowerBound(blocks[i].run, k));
    }
  }

  /** Seek the index, ask the filter, then look in one block only. */
  method InternalGet(blocks: seq<Block>, mayMatch: (nat, UserKey) -> bool, user: UserKey, s: nat)
    returns (found: Option<Entry>)
    requires TightlySeparated(blocks) && Sorted(Flat(blocks)) && NoFalseNegatives(blocks, mayMatch)
    ensures (if found.Some? && found.value.ik.user == user then found else None) == RunGet(Flat(blocks), user, s)
  {
    hide TightlySeparated, NoFalseNegatives, Flat, LowerBound, IndexRun, Sorted, RunGet;
    BlockGetIsFlat(blocks, mayMatch, user, s);
    var k := LookupKey(user, s);
    var i := LowerBound(IndexRun(blocks), k);
    found := None;
    if i < |blocks| {
      if !mayMatch(i, user) {
        // Not found.
      } else {
        var n := LowerBound(blocks[i].run, k);
        if n < |blocks[i].run| {
          found := Some(blocks[i].run[n]);
        }
      }
    }
  }

  /** The sought user key's entry is in the block the index leads to, or nowhere. */
  lemma OneBlockSuffices(blocks: seq<Block>, mayMatch: (nat, UserKey) -> bool, user: UserKey, s: nat)
    requires TightlySeparated(blocks) && Sorted(Flat(blocks)) && NoFalseNegatives(blocks, mayMatch)
    ensures RunGet(Flat(blocks), user, s).Some? ==>
              var i := LowerBound(IndexRun(blocks), LookupKey(user, s));
              i < |blocks| && LowerBound(blocks[i].run, LookupKey(user, s)) < |blocks[i].run| && mayMatch(i, user)
  {
    hide Separated, TightlySeparated, NoFalseNegatives, Flat, Sorted, LowerBound, Offset;
    TightIsSeparated(blocks);
    var k := LookupKey(user, s);
    var i, c := LowerBound(IndexRun(blocks), k), LowerBound(Flat(blocks), k);
    if RunGet(Flat(blocks), user, s).Some? {
      TwoLevelSeek(blocks, k);
      var n := LowerBound(blocks[i].run, k);
      if n < |blocks[i].run| {
        FlatAt(blocks, i, n);
        MatchesOwn(blocks, mayMatch, i, blocks[i].run[n]);
      } else {
        var j, m := BlockOf(blocks, c);
        FlatAt(blocks, j, m);
        OffsetStep(blocks, i);
        OffsetStep(blocks, j);
        if j <= i {
          OffsetsGrow(blocks, j + 1, i + 1);
        }
        SepOf(blocks, i);
        LaterBlocksHoldOtherKeys(blocks, k, i, j, blocks[j].run[m]);
      }
    }
  }

  /** No later block holds the user key of a target above this block and at or below its index key. */
  lemma LaterBlocksHoldOtherKeys(blocks: seq<Block>, k: IKey, i: nat, j: nat, e: Entry)
    requires TightlySeparated(blocks) && Sorted(Flat(blocks)) && i < j < |blocks| && e in blocks[j].run
    requires blocks[i].run != [] && Less(Last(blocks[i]), k) && !Less(blocks[i].sep, k)
    ensures e.ik.user != k.user
  {
    hide TightlySeparated, Flat, Sorted;
    SepOf(blocks, i);
    EntryAbove(blocks, i, j, e);
  }

  lemma MatchesOwn(blocks: seq<Block>, mayMatch: (nat, UserKey) -> bool, i: nat, e: Entry)
    requires NoFalseNegatives(blocks, mayMatch) && i < |blocks| && e in blocks[i].run
    ensures mayMatch(i, e.ik.user)
  {
  }
}
