/** Building a table file pair by pair (table/table_builder.cc), without compression. */
module TableBuilders {
  import opened Coding
  import opened Keys
  import opened Blocks
  import opened BlockBuilders
  import opened InternalKeys
  import opened TableFormat
  import opened TableBuilds
  import opened Blooms
  import opened FilterBlocks
  import Separators
  import opened Ranks
  import TableFilters
  import Tables

  method FindSeparator(last: Bytes, next: Bytes) returns (key: Bytes)
    requires InternalLess()(last, next)
    ensures key == SeparatorKey(last, next)
  {
    hide Decoded, Encoded, Separators.Separator, Separators.KeyBefore, Separators.Before;
    var sep := Separators.SeparatorOf(Decoded(last), Decoded(next));
    key := if sep == Decoded(last) then last else Encoded(sep);
  }

  method FindSuccessor(last: Bytes) returns (key: Bytes)
    ensures key == SuccessorKey(last)
  {
    hide Decoded, Encoded, Separators.Successor, Separators.Before;
    var succ := Separators.SuccessorOf(Decoded(last));
    key := if succ == Decoded(last) then last else Encoded(succ);
  }

  method NewFilterBlock(policy: BloomFilterPolicy?) returns (filterBlock: FilterBlockBuilder?)
    requires policy != null ==> 1 <= policy.k <= 30
    ensures if policy == null then filterBlock == null
            else && filterBlock != null && fresh(filterBlock) && filterBlock.policy == policy
                 && filterBlock.Valid() && filterBlock.blockOffset == 0
  {
    hide Filters, Concat, Starts;
    if policy == null {
      return null;
    }
    filterBlock := new FilterBlockBuilder(policy);
    filterBlock.StartBlock(0);
  }

  class TableBuilder {
    const options: Options
    const policyName: Bytes
    const dataBlock: BlockBuilder
    const indexBlock: BlockBuilder
    const filterBlock: FilterBlockBuilder?
    var file: Bytes
    var lastKey: Bytes
    var numEntries: nat
    var closed: bool
    // Set while the last block written has no index entry: until the next key is known.
    var pendingIndexEntry: bool
    var pendingHandle: Handle

    // The pairs added.
    ghost var pairs: seq<Pair>

    ghost function Repr(): set<object> {
      {this, dataBlock, indexBlock} + if filterBlock == null then {} else {filterBlock}
    }

    ghost predicate BlockIs(block: BlockBuilder, interval: nat, items: seq<Item>)
      reads block
    {
      block.Valid() && !block.finished && block.interval == interval && block.less == InternalLess() &&
        block.items == items
    }

    ghost predicate FilterIs(t: Build)
      reads filterBlock
    {
      filterBlock != null ==>
        && filterBlock.Valid() && filterBlock.blockOffset == |t.file|
        && |t.offsets| == |t.blocks| && UsersAdded(t, filterBlock.added)
    }

    ghost predicate DataIs(t: Build)
      reads this`file, this`closed, dataBlock
    {
      file == t.file && !closed && BlockIs(dataBlock, options.interval, t.open)
    }

    ghost predicate IndexIs(t: Build)
      reads this`pendingIndexEntry, this`pendingHandle, indexBlock
    {
      && BlockIs(indexBlock, 1, t.index)
      && pendingIndexEntry == t.pending.Some? && (pendingIndexEntry ==> pendingHandle == t.pending.value)
    }

    /** The fields hold what `t` says. */
    ghost predicate Holds(t: Build)
      reads this`file, this`closed, this`pendingIndexEntry, this`pendingHandle, dataBlock, indexBlock, filterBlock
    {
      dataBlock != indexBlock && DataIs(t) && IndexIs(t) && FilterIs(t)
    }

    ghost predicate Valid()
      reads this, dataBlock, indexBlock, filterBlock
    {
      KeysOk(pairs) && lastKey == LastKey(pairs) && numEntries == |pairs| && Holds(Built(pairs, options))
    }

    /** What is written so far: the open block does not count. */
    function FileSize(): (n: nat)
      requires Valid()
      reads this, dataBlock, indexBlock, filterBlock
      ensures n == |Built(pairs, options).file|
    {
      |file|
    }

    constructor (options: Options, policy: BloomFilterPolicy?, policyName: Bytes)
      requires options.interval >= 1 && (policy != null ==> 1 <= policy.k <= 30)
      ensures Valid() && pairs == [] && fresh(Repr()) && this.options == options && this.policyName == policyName
      ensures if policy == null then filterBlock == null else filterBlock != null && filterBlock.policy == policy
    {
      hide Body, Restarts, Since, Spaced, Blocks.Ascending, InternalLess, Users, Built, KeysOk, LastKey;
      hide FilterBlockBuilder.Valid;
      this.options, this.policyName := options, policyName;
      dataBlock := new BlockBuilder(options.interval, InternalLess());
      indexBlock := new BlockBuilder(1, InternalLess());
      file, lastKey, numEntries, closed, pendingIndexEntry, pendingHandle := [], [], 0, false, false, Handle(0, 0);
      pairs := [];
      var f := NewFilterBlock(policy);
      filterBlock := f;
      new;
      NothingYet(options);
      NoUsers();
    }

    /** WriteBlock: the builder is ready for the next block afterwards. */
    method WriteBlock(block: BlockBuilder) returns (h: Handle)
      requires block.Valid() && !block.finished && this != block as object
      modifies this`file, block
      ensures block.Valid() && !block.finished && block.items == []
      ensures file == old(file) + Raw(Image(old(block.items))) && h == Handle(|old(file)|, |Image(old(block.items))|)
    {
      hide Image, Raw;
      var raw := block.Finish();
      var more;
      more, h := WriteRawBlock(file, raw);
      file := more;
      block.Reset();
    }

    method Flush(ghost t: Build)
      requires Holds(t) && (t.open != [] ==> t.pending.None?)
      modifies Repr()
      ensures Holds(Flushed(t)) && pairs == old(pairs) && lastKey == old(lastKey) && numEntries == old(numEntries)
      ensures filterBlock != null ==> filterBlock.added == old(filterBlock.added)
    {
      hide Image, Raw, UsersAdded, Body, Restarts, Since, Spaced, Blocks.Ascending;
      if dataBlock.Empty() {
        return;
      }
      if filterBlock != null { FlushKeepsUsers(t, filterBlock.added); }
      var h := WriteBlock(dataBlock);
      pendingHandle := h;
      pendingIndexEntry := true;
      if filterBlock != null {
        filterBlock.StartBlock(|file|);
      }
    }

    /** The index entry of the last block, under `key`. */
    method AddIndexEntry(key: Bytes, ghost t: Build)
      requires IndexIs(t) && t.pending.Some?
      requires t.index != [] ==> InternalLess()(t.index[|t.index| - 1].pair.key, key)
      modifies this`pendingIndexEntry, indexBlock
      ensures IndexIs(WithIndexEntry(t, key))
    {
      hide Image, Body, Restarts, Since, Spaced, Blocks.Ascending, EncodeHandle, Transitive, InternalLess;
      InternalLessIsTransitive();
      indexBlock.BufferEmptyIff();
      indexBlock.Add(key, EncodeHandle(pendingHandle));
      pendingIndexEntry := false;
    }

    method AddItem(p: Pair, ghost t: Build)
      requires Holds(t) && t.pending.None?
      requires t.open != [] ==> InternalLess()(t.open[|t.open| - 1].pair.key, p.key)
      modifies dataBlock, filterBlock
      ensures Holds(WithItem(t, p, options))
    {
      hide Image, Body, Restarts, Since, Spaced, Blocks.Ascending, Transitive, InternalLess, Users;
      InternalLessIsTransitive();
      if filterBlock != null {
        UsersGrow(t.open, NextItem(t.open, p, options.interval));
        filterBlock.AddKey(Decoded(p.key).user);
      }
      dataBlock.BufferEmptyIff();
      dataBlock.Add(p.key, p.value);
    }

    method IndexPending(key: Bytes, ghost t: Build)
      requires Valid() && t == Built(pairs, options) && Follows(pairs, key)
      modifies this`pendingIndexEntry, indexBlock
      ensures Holds(if t.pending.Some? then WithIndexEntry(t, SeparatorKey(LastKey(pairs), key)) else t)
    {
      hide Image, Built, BuildOk, KeysOk, InternalLess, SeparatorKey, Body, Restarts, Since, Spaced, Blocks.Ascending,
           EncodeHandle;
      hide LastKey, BlockIs, IsKey, UsersAdded;
      BuiltOk(pairs, options);
      if pendingIndexEntry {
        IndexMayGrow(t, pairs, key);
        var sep := FindSeparator(lastKey, key);
        AddIndexEntry(sep, t);
        ghost var u := WithIndexEntry(t, sep);
        assert FilterIs(u) by { if filterBlock != null { SameUsers(t, u, filterBlock.added); } }
      }
    }

    method FlushFull(ghost t: Build)
      requires Holds(t) && t.pending.None?
      modifies Repr()
      ensures Holds(if |Image(t.open)| >= options.blockSize then Flushed(t) else t)
      ensures pairs == old(pairs) && lastKey == old(lastKey) && numEntries == old(numEntries)
    {
      hide Image, FilterIs, Flushed, Body, Restarts, Since, Spaced, Blocks.Ascending;
      if dataBlock.CurrentSizeEstimate() >= options.blockSize {
        Flush(t);
      }
    }

    method Add(key: Bytes, value: Bytes)
      requires Valid() && Follows(pairs, key)
      modifies Repr()
      ensures Valid() && pairs == old(pairs) + [Pair(key, value)]
    {
      hide Image, Holds, Built, BuildOk, KeysOk, InternalLess, SeparatorKey, Flushed, WithIndexEntry, LastKey, Follows,
           NextItem;
      ghost var t, p := Built(pairs, options), Pair(key, value);
      BuiltOk(pairs, options);
      AddBuilds(pairs, p, options);
      IndexPending(key, t);
      MayJoin(t, pairs, key);
      t := if t.pending.Some? then WithIndexEntry(t, SeparatorKey(LastKey(pairs), key)) else t;
      AddItem(Pair(key, value), t);
      t := WithItem(t, p, options);
      lastKey := key;
      numEntries := numEntries + 1;
      FlushFull(t);
      pairs := pairs + [p];
    }

    /** The filter block, if there is a policy; nothing else refers to it but the metaindex block. */
    method WriteFilter(ghost t: Build) returns (h: Option<Handle>, ghost filter: Option<FilterPart>)
      requires FilterIs(t) && file == t.file
      modifies this`file, filterBlock
      ensures (h.Some? <==> filter.Some?) && (filter.Some? <==> filterBlock != null)
      ensures file == WithFilter(t.file, filter) && (filter.Some? ==> filter.value.name == policyName)
      ensures filter.Some? ==> FilterWritten(t, filter.value) && h.value == Handle(|t.file|, |filter.value.contents|)
    {
      hide Raw, Layout, Filters, Covers, TableFilters.AllMatched, UsersAdded;
      h, filter := None, None;
      if filterBlock != null {
        ghost var added := filterBlock.added;
        var contents := filterBlock.Finish();
        if |contents| < WORD {
          AllAdded(t, added);
          TableFilters.FilterCovers(filterBlock, UsersOf(t.blocks), t.offsets, contents);
        }
        var more, handle := WriteRawBlock(file, contents);
        file, h, filter := more, Some(handle), Some(FilterPart(policyName, contents));
      }
    }

    /** The filter block matches every user key at the offset of its block. */
    ghost predicate FilterWritten(t: Build, part: FilterPart)
      requires filterBlock != null
    {
      && part.name == policyName && |t.offsets| == |t.blocks|
      && (|part.contents| < WORD ==>
            TableFilters.AllMatched(filterBlock.policy.hash, part.contents, UsersOf(t.blocks), t.offsets))
    }

    /** The metaindex block: where the filter block is. */
    method WriteMetaindex(filterHandle: Option<Handle>, ghost size: nat, ghost filter: Option<FilterPart>)
      returns (h: Handle)
      requires options.interval >= 1 && (filterHandle.Some? <==> filter.Some?)
      requires filter.Some? ==>
               filter.value.name == policyName && filterHandle.value == Handle(size, |filter.value.contents|)
      modifies this`file
      ensures file == old(file) + Raw(Image(MetaItems(size, filter)))
      ensures h == Handle(|old(file)|, |Image(MetaItems(size, filter))|)
    {
      hide Image, Raw, EncodeHandle, Transitive, Body, Restarts, Since, Spaced, Blocks.Ascending;
      InternalLessIsTransitive();
      var meta := new BlockBuilder(options.interval, InternalLess());
      if filterHandle.Some? {
        meta.BufferEmptyIff();
        assert [] + [Item(Pair(FilterKey(policyName), EncodeHandle(filterHandle.value)), true)] ==
               MetaItems(size, filter);
        meta.Add(FilterKey(policyName), EncodeHandle(filterHandle.value));
      }
      h := WriteBlock(meta);
    }

    method WriteIndex(metaHandle: Handle, ghost t: Build)
      requires IndexIs(t)
      modifies this`file, indexBlock
      ensures file == old(file) + Raw(Image(t.index)) +
                      EncodeFooter(metaHandle, Handle(|old(file)|, |Image(t.index)|))
    {
      hide Image, Raw, EncodeFooter, Body, Restarts, Since, Spaced, Blocks.Ascending;
      var indexHandle := WriteBlock(indexBlock);
      file := file + EncodeFooter(metaHandle, indexHandle);
    }

    method IndexLast(ghost t: Build)
      requires t == Flushed(Built(pairs, options)) && KeysOk(pairs) && lastKey == LastKey(pairs) && IndexIs(t)
      modifies this`pendingIndexEntry, indexBlock
      ensures IndexIs(if t.pending.Some? then WithIndexEntry(t, SuccessorKey(LastKey(pairs))) else t)
    {
      hide Built, KeysOk, Flushed, SuccessorKey, LastKey, BlockIs, WithIndexEntry, InternalLess;
      if pendingIndexEntry {
        IndexMayClose(pairs, options);
        var key := FindSuccessor(lastKey);
        AddIndexEntry(key, t);
      }
    }

    method Finish() returns (ghost filter: Option<FilterPart>)
      requires Valid() && options.interval >= 1
      modifies Repr()
      ensures closed && file == TableFile(old(pairs), options, filter)
      ensures filter.Some? <==> filterBlock != null
      ensures filter.Some? ==> FilterWritten(Closed(Built(old(pairs), options), LastKey(old(pairs))), filter.value)
    {
      hide Image, Raw, EncodeHandle, EncodeFooter, Built, BuildOk, KeysOk, Flushed, SuccessorKey, LastKey,
           FilterWritten, FilterIs;
      hide InternalLess, BlockIs, MetaItems, TableFilters.AllMatched, WithIndexEntry, IndexIs;
      ghost var t := Built(pairs, options);
      BuiltOk(pairs, options);
      PendingIsAlone(t, pairs);
      Flush(t);
      t := Flushed(t);
      closed := true;
      var filterHandle;
      filterHandle, filter := WriteFilter(t);
      var metaHandle := WriteMetaindex(filterHandle, |t.file|, filter);
      IndexLast(t);
      ghost var c := if t.pending.Some? then WithIndexEntry(t, SuccessorKey(LastKey(pairs))) else t;
      ClosedKeeps(t, SuccessorKey(LastKey(pairs)));
      if filter.Some? { SameFilter(t, c, filter.value); }
      WriteIndex(metaHandle, c);
    }

    lemma SameFilter(t: Build, c: Build, part: FilterPart)
      requires filterBlock != null && FilterWritten(t, part) && c.blocks == t.blocks && c.offsets == t.offsets
      ensures FilterWritten(c, part)
    {
      hide TableFilters.AllMatched;
    }
  }

  /** The pair may join the open block, once the pending index entry is written. */
  lemma MayJoin(t: Build, pairs: seq<Pair>, key: Bytes)
    requires BuildOk(t, pairs) && Follows(pairs, key)
    ensures var u := if t.pending.Some? then WithIndexEntry(t, SeparatorKey(LastKey(pairs), key)) else t;
            u.pending.None? && (u.open != [] ==> InternalLess()(u.open[|u.open| - 1].pair.key, key))
  {
    hide IsKey, InternalLess, EncodeHandle, Image, SeparatorKey, Grown, LastKey, BlocksWritten, EntryWritten;
    if t.pending.None? && t.open != [] { OpenFollows(t, pairs, key); }
  }

  lemma PendingIsAlone(t: Build, pairs: seq<Pair>)
    requires BuildOk(t, pairs)
    ensures t.open != [] ==> t.pending.None?
  {
    hide BlocksWritten, Grown, EncodeHandle, Image;
  }

  /** The successor may be the last index key. */
  lemma IndexMayClose(pairs: seq<Pair>, o: Options)
    requires KeysOk(pairs)
    ensures var t := Flushed(Built(pairs, o));
            t.pending.Some? && t.index != [] ==>
              InternalLess()(t.index[|t.index| - 1].pair.key, SuccessorKey(LastKey(pairs)))
  {
    hide Built, BuildOk, KeysOk, Flushed, IsKey, InternalLess, SuccessorKey, Unpacked, Decoded;
    BuiltOk(pairs, o);
    FlushKeeps(Built(pairs, o), pairs);
    LastIsKey(pairs);
    var t := Flushed(Built(pairs, o));
    if t.pending.Some? && t.index != [] {
      SomethingAdded(t, pairs);
      SuccessorKeyFits(LastKey(pairs));
      IndexFollows(t, pairs, SuccessorKey(LastKey(pairs)));
    }
  }

  lemma SomethingAdded(t: Build, pairs: seq<Pair>)
    requires BuildOk(t, pairs) && t.pending.Some?
    ensures pairs != []
  {
    hide Tables.Growing, Image, Raw, EncodeHandle, Modelled, EntryOf;
    var n := |t.index|;
    BlockIsNotEmpty(t, n);
    Tables.NextEndsAdded(Modelled(t.index, t.blocks[..n]), RunOf(t.blocks[n]), RunOfPairs(pairs));
  }

  lemma AllAdded(t: Build, added: set<(nat, Bytes)>)
    requires |t.offsets| == |t.blocks| && UsersAdded(t, added)
    ensures TableFilters.AllAdded(UsersOf(t.blocks), t.offsets, added, |t.blocks|)
  {
    hide Users;
  }

  lemma ClosedKeeps(t: Build, key: Bytes)
    ensures t.pending.Some? ==>
              var c := WithIndexEntry(t, key); c.blocks == t.blocks && c.offsets == t.offsets && c.file == t.file
  {
    hide EncodeHandle;
  }

  lemma NothingYet(o: Options)
    ensures Built([], o) == Build([], [], [], None, [], []) && LastKey([]) == [] && KeysOk([])
  {
  }
}
