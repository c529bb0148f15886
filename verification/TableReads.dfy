/** Looking a key up in a table file: the index block, the filter block and one data block
    (table/table.cc, table/format.cc). */
module TableReads {
  import opened Coding
  import opened Keys
  import opened Separators
  import opened Ranks
  import opened InternalKeys
  import opened TableFormat
  import opened TableBuilds
  import opened Blocks
  import opened BlockIters
  import opened BlockRoundTrips
  import opened FilterBlocks
  import opened TableFilters
  import TwoLevel
  import Tables

  /** Seeking a block is seeking its run. */
  lemma SeekIsLowerBound(items: seq<Item>, target: Bytes)
    requires Keyed(items) && IsKey(target)
    ensures FirstAtLeast(items, InternalLess(), target) == LowerBound(RunOf(items), Unpacked(Decoded(target)))
  {
    hide Decoded, Unpacked, KeyBefore, Less, WellFormed, FirstAtLeast;
    var n := FirstAtLeast(items, InternalLess(), target);
    forall i | 0 <= i < |items|
      ensures InternalLess()(items[i].pair.key, target) <==> Less(RunOf(items)[i].ik, Unpacked(Decoded(target)))
    {
      UnpackedEmbeds(Decoded(items[i].pair.key), Decoded(target));
    }
    LowerBoundIs(RunOf(items), Unpacked(Decoded(target)), n);
  }

  // ------------------------------------------------------------------ tables

  /** A block read from the file at a handle. */
  ghost predicate HoldsBlock(file: Bytes, h: Handle, items: seq<Item>) {
    && h.size == |Image(items)| < WORD && Lies(file, h.offset, Raw(Image(items)))
    && Keyed(items) && (items != [] ==> items[0].restart)
  }

  /** An index entry leads to its data block. */
  ghost predicate LeadsTo(file: Bytes, entry: Item, items: seq<Item>, offset: nat) {
    var p := DecodeHandle(entry.pair.value);
    p.Parsed? && p.value.offset == offset && HoldsBlock(file, p.value, items)
  }

  ghost predicate IsTable(file: Bytes, index: seq<Item>, blocks: seq<seq<Item>>, offsets: seq<nat>) {
    && |index| == |blocks| == |offsets| && Keyed(index) && |Image(index)| < WORD
    && (index != [] ==> index[0].restart)
    && forall i :: 0 <= i < |index| ==> LeadsTo(file, index[i], blocks[i], offsets[i])
  }

  /** What is known of the filter of a table, if it has one. */
  ghost predicate FilterServes(filter: FilterBlockReader?, keys: seq<seq<Bytes>>, offsets: seq<nat>,
                               blocks: seq<seq<Item>>)
    requires |keys| == |offsets| == |blocks|
  {
    filter != null ==>
      && filter.Valid() && AllMatched(filter.policy.hash, filter.data, keys, offsets)
      && forall i :: 0 <= i < |blocks| ==> KeyedBy(RunOf(blocks[i]), keys[i])
  }

  ghost function MayMatch(filter: FilterBlockReader?, offsets: seq<nat>): (nat, UserKey) -> bool {
    if filter == null then (i: nat, user: UserKey) => true else FilterOn(filter.policy.hash, filter.data, offsets)
  }

  lemma IndexIs(index: seq<Item>, blocks: seq<seq<Item>>, target: Bytes)
    requires |index| == |blocks| && Keyed(index) && IsKey(target)
    ensures LowerBound(TwoLevel.IndexRun(Modelled(index, blocks)), Unpacked(Decoded(target))) ==
            FirstAtLeast(index, InternalLess(), target)
  {
    hide Decoded, Unpacked, FirstAtLeast, RunOf;
    SeekIsLowerBound(index, target);
    IndexKeys(index);
    var t := Unpacked(Decoded(target));
    LowerBoundIs(TwoLevel.IndexRun(Modelled(index, blocks)), t, LowerBound(RunOf(index), t));
  }

  lemma IndexKeys(index: seq<Item>)
    ensures forall i :: 0 <= i < |index| ==> RunOf(index)[i].ik == Unpacked(Decoded(index[i].pair.key))
  {
  }

  /** Seek a block; what it stops at. */
  method SeekBlock(contents: Bytes, less: (Bytes, Bytes) -> bool, target: Bytes, ghost items: seq<Item>)
    returns (found: Option<Pair>)
    requires contents == Image(items) && |contents| < WORD && (items != [] ==> items[0].restart)
    requires Transitive(less) && Blocks.Ascending(items, less)
    ensures var n := FirstAtLeast(items, less, target);
            found == if n < |items| then Some(items[n].pair) else None
  {
    hide Image, Blocks.Ascending, FirstAtLeast, Transitive, RestartItems, Off, Body;
    var iter := Opening(contents, less, items);
    iter.Seek(target);
    if iter.Valid() {
      found := Some(Pair(iter.Key(), iter.Value()));
    } else {
      found := None;
    }
  }

  lemma TargetIs(user: Bytes, s: nat)
    requires s <= MAX_SEQUENCE
    ensures var k := Key(user, s * 256 + 1);
            WellFormed(k) && IsKey(Encoded(k)) && Unpacked(Decoded(Encoded(k))) == LookupKey(KeyRank(user), s)
  {
    hide Decoded, Encoded, KeyRank;
    DecodedEncoded(Key(user, s * 256 + 1));
  }

  /** The index and every data block are in the order their seeks rely on. */
  lemma TableIsSorted(file: Bytes, index: seq<Item>, blocks: seq<seq<Item>>, offsets: seq<nat>)
    requires IsTable(file, index, blocks, offsets)
    requires Tables.TightlySeparated(Modelled(index, blocks)) && Sorted(TwoLevel.Flat(Modelled(index, blocks)))
    ensures Blocks.Ascending(index, InternalLess())
    ensures forall i :: 0 <= i < |blocks| ==> Blocks.Ascending(blocks[i], InternalLess())
  {
    hide Tables.TightlySeparated, TwoLevel.Flat, Decoded, Unpacked, RunOf, Sorted, Blocks.Ascending, InternalLess,
         Image, DecodeHandle;
    var bs := Modelled(index, blocks);
    Tables.TightIsSeparated(bs);
    SeparatorsAscend(bs);
    SortedByKeys(TwoLevel.IndexRun(bs), index);
    SortedRun(index);
    forall i | 0 <= i < |blocks| ensures Blocks.Ascending(blocks[i], InternalLess()) {
      assert bs[i] in bs;
      assert LeadsTo(file, index[i], blocks[i], offsets[i]);
      SortedRun(blocks[i]);
    }
  }

  lemma SeparatorsAscend(bs: seq<TwoLevel.Block>)
    requires Tables.TightlySeparated(bs) && TwoLevel.Separated(bs)
    ensures Sorted(TwoLevel.IndexRun(bs))
  {
    hide Tables.TightlySeparated;
    forall i, j | 0 <= i < j < |bs| ensures Less(bs[i].sep, bs[j].sep) {
      Tables.SepOf(bs, j);
      var e := bs[j].run[0];
      assert e in bs[j].run;
      assert Less(bs[i].sep, e.ik) && !Less(bs[j].sep, e.ik);
    }
  }

  lemma SortedByKeys(r: Run, index: seq<Item>)
    requires Sorted(r) && |r| == |index| && forall i :: 0 <= i < |r| ==> r[i].ik == Unpacked(Decoded(index[i].pair.key))
    ensures Sorted(RunOf(index))
  {
    hide Decoded, Unpacked, Less;
  }

  /** A filter answers for the user key's rank what it answers for the user key. */
  lemma MayMatchIs(filter: FilterBlockReader, offsets: seq<nat>, i: nat, user: Bytes)
    requires i < |offsets|
    ensures MayMatch(filter, offsets)(i, KeyRank(user)) <==> MayHold(filter.policy.hash, filter.data, offsets[i], user)
  {
    hide MayHold;
    forall u | KeyRank(u) == KeyRank(user) ensures u == user {
      RankEmbeds(u, user);
    }
  }

  lemma NeverDenies(filter: FilterBlockReader?, index: seq<Item>, blocks: seq<seq<Item>>, keys: seq<seq<Bytes>>,
                    offsets: seq<nat>)
    requires |index| == |blocks| == |keys| == |offsets| && FilterServes(filter, keys, offsets, blocks)
    ensures Tables.NoFalseNegatives(Modelled(index, blocks), MayMatch(filter, offsets))
  {
    hide FilterOn, Unpacked, Decoded, RunOf, AllMatched, KeyedBy;
    if filter != null {
      FilterNeverDenies(filter.policy.hash, filter.data, keys, offsets, Modelled(index, blocks));
    }
  }

  /** Table::InternalGet. */
  method InternalGet(file: Bytes, indexData: Bytes, filter: FilterBlockReader?, verify: bool, user: Bytes, s: nat,
                     ghost index: seq<Item>, ghost blocks: seq<seq<Item>>, ghost keys: seq<seq<Bytes>>,
                       ghost offsets: seq<nat>)
    returns (found: Option<Entry>)
    requires s <= MAX_SEQUENCE && indexData == Image(index) && IsTable(file, index, blocks, offsets)
    requires |keys| == |blocks| && FilterServes(filter, keys, offsets, blocks)
    requires Tables.TightlySeparated(Modelled(index, blocks)) && Sorted(TwoLevel.Flat(Modelled(index, blocks)))
    ensures (if found.Some? && found.value.ik.user == KeyRank(user) then found else None) ==
            RunGet(TwoLevel.Flat(Modelled(index, blocks)), KeyRank(user), s)
  {
    hide Tables.TightlySeparated, TwoLevel.Flat, Tables.NoFalseNegatives, Sorted, Blocks.Ascending, Keyed, IsKey,
         Decoded, Encoded,
      Unpacked, KeyRank, FirstAtLeast, LowerBound, Image, InternalLess, MayMatch, MayHold, DecodeHandle,
        TwoLevel.IndexRun, RunGet, Transitive, Raw;
    TargetIs(user, s);
    TableIsSorted(file, index, blocks, offsets);
    NeverDenies(filter, index, blocks, keys, offsets);
    Tables.BlockGetIsFlat(Modelled(index, blocks), MayMatch(filter, offsets), KeyRank(user), s);
    var k := Encoded(Key(user, s * 256 + 1));
    IndexIs(index, blocks, k);
    ghost var i := FirstAtLeast(index, InternalLess(), k);
    found := None;
    InternalLessIsTransitive();
    var entry := SeekBlock(indexData, InternalLess(), k, index);
    if entry.Some? {
      assert LeadsTo(file, index[i], blocks[i], offsets[i]);
      var h := DecodeHandle(entry.value.value).value;
      found := LookInBlock(file, h, filter, verify, user, k, blocks[i], i, offsets);
      BlockFound(index, blocks, filter, offsets, user, s, i);
    }
  }

  /** Ask the filter, then look in the block the index led to. */
  method LookInBlock(file: Bytes, h: Handle, filter: FilterBlockReader?, verify: bool, user: Bytes, k: Bytes,
                     ghost items: seq<Item>, ghost i: nat, ghost offsets: seq<nat>) returns (found: Option<Entry>)
    requires HoldsBlock(file, h, items) && Blocks.Ascending(items, InternalLess()) && IsKey(k)
    requires i < |offsets| && h.offset == offsets[i] && (filter != null ==> filter.Valid())
    ensures var n := FirstAtLeast(items, InternalLess(), k);
            found == if MayMatch(filter, offsets)(i, KeyRank(user)) &&
              n < |items| then Some(EntryOf(items[n].pair)) else None
  {
    hide Image, Blocks.Ascending, Keyed, IsKey, FirstAtLeast, InternalLess, MayHold, KeyRank, EntryOf, FilterOn,
         Transitive, Raw, ReadBlock;
    found := None;
    if filter != null {
      MayMatchIs(filter, offsets, i, user);
      var may := filter.KeyMayMatch(h.offset, user);
      if !may {
        return;
      }
    }
    BlockReads(file, h.offset, Image(items), verify);
    var contents := ReadBlock(file, h, verify);
    InternalLessIsTransitive();
    var e := SeekBlock(contents.value, InternalLess(), k, items);
    if e.Some? {
      found := Some(EntryOf(e.value));
    }
  }

  /** What looking in the block found is what the model's lookup finds. */
  lemma BlockFound(index: seq<Item>, blocks: seq<seq<Item>>, filter: FilterBlockReader?, offsets: seq<nat>,
                   user: Bytes, s: nat, i: nat)
    requires |index| == |blocks| && i < |index| && Keyed(index) && Keyed(blocks[i]) && s <= MAX_SEQUENCE
    requires i == FirstAtLeast(index, InternalLess(), Encoded(Key(user, s * 256 + 1)))
    ensures var n := FirstAtLeast(blocks[i], InternalLess(), Encoded(Key(user, s * 256 + 1)));
            Tables.BlockGet(Modelled(index, blocks), MayMatch(filter, offsets), KeyRank(user), s) ==
            if MayMatch(filter, offsets)(i, KeyRank(user)) &&
              n < |blocks[i]| then Some(EntryOf(blocks[i][n].pair)) else None
  {
    hide Keyed, IsKey, Decoded, Encoded, Unpacked, KeyRank, FirstAtLeast, LowerBound, InternalLess, MayMatch,
         TwoLevel.IndexRun, EntryOf;
    var k := Encoded(Key(user, s * 256 + 1));
    TargetIs(user, s);
    IndexIs(index, blocks, k);
    SeekIsLowerBound(blocks[i], k);
  }
}
