/** Opening a table file that a builder finished and looking keys up in it (table/table.cc): whatever pairs were
    added, a lookup finds what they hold. */
module TableFiles {
  import opened Coding
  import opened Keys
  import opened Separators
  import opened Ranks
  import opened Blocks
  import opened Blooms
  import opened FilterBlocks
  import opened TableFilters
  import opened InternalKeys
  import opened TableFormat
  import opened TableBuilds
  import opened TableBuilders
  import opened TableReads
  import BlockIters
  import Tables
  import TwoLevel

  // ------------------------------------------------------------------ where things lie in a finished file

  ghost function MetaHandle(t: Build, filter: Option<FilterPart>): Handle {
    Handle(|WithFilter(t.file, filter)|, |Image(MetaItems(|t.file|, filter))|)
  }

  ghost function IndexHandle(t: Build, filter: Option<FilterPart>): Handle {
    var h := MetaHandle(t, filter);
    Handle(h.offset + h.size + TRAILER_SIZE, |Image(t.index)|)
  }

  lemma LiesInside(before: Bytes, b: Bytes, behind: Bytes)
    ensures Lies(before + b + behind, |before|, b)
  {
    LiesAtEnd(before, b);
    StillLies(before + b, behind, |before|, b);
  }

  lemma Regroup(a: Bytes, b: Bytes, c: Bytes, d: Bytes)
    ensures a + b + c + d == a + b + (c + d) && a + b + c + d == (a + b) + c + d
  {
  }

  lemma FileParts(t: Build, filter: Option<FilterPart>)
    ensures var f, m, i := Finished(t, filter), MetaHandle(t, filter), IndexHandle(t, filter);
            && f[..|t.file|] == t.file
            && Lies(f, m.offset, Raw(Image(MetaItems(|t.file|, filter))))
            && Lies(f, i.offset, Raw(Image(t.index)))
            && (filter.Some? ==> Lies(f, |t.file|, Raw(filter.value.contents)))
            && i.offset + i.size + TRAILER_SIZE + |EncodeFooter(m, i)| == |f|
            && f[|f| - |EncodeFooter(m, i)|..] == EncodeFooter(m, i)
  {
    hide Image, Raw, EncodeFooter, MetaItems, Lies;
    var f1, meta, index := WithFilter(t.file, filter), Raw(Image(MetaItems(|t.file|, filter))), Raw(Image(t.index));
    var footer := EncodeFooter(MetaHandle(t, filter), IndexHandle(t, filter));
    Regroup(f1, meta, index, footer);
    LiesInside(f1, meta, index + footer);
    LiesInside(f1 + meta, index, footer);
    if filter.Some? {
      LiesAtEnd(t.file, Raw(filter.value.contents));
      StillLies(f1, meta + (index + footer), |t.file|, Raw(filter.value.contents));
      assert f1 + (meta + (index + footer)) == f1 + meta + index + footer;
    }
  }

  function FooterOf(file: Bytes): Option<Footer> {
    if |file| < FOOTER_SIZE then None else DecodeFooter(file[|file| - FOOTER_SIZE..])
  }

  lemma FooterReads(t: Build, filter: Option<FilterPart>)
    requires |Finished(t, filter)| < WORD
    ensures FooterOf(Finished(t, filter)) == Some(Footer(MetaHandle(t, filter), IndexHandle(t, filter)))
  {
    hide Image, Raw, EncodeFooter, DecodeFooter, MetaItems, Lies, Finished;
    FileParts(t, filter);
    FooterRoundTrip(MetaHandle(t, filter), IndexHandle(t, filter));
  }

  // ------------------------------------------------------------------ blocks and filter

  lemma StartOfFile(file: Bytes, n: nat, offset: nat, b: Bytes)
    requires n <= |file| && Lies(file[..n], offset, b)
    ensures Lies(file, offset, b)
  {
    StillLies(file[..n], file[n..], offset, b);
    assert file[..n] + file[n..] == file;
  }

  /** The data blocks and the index of a closed table are those of its file. */
  lemma FileIsTable(t: Build, pairs: seq<Pair>, filter: Option<FilterPart>)
    requires ClosedOk(t, pairs) && |Finished(t, filter)| < WORD
    ensures IsTable(Finished(t, filter), t.index, t.blocks, t.offsets)
  {
    hide Image, Raw, Lies, Finished, DecodeHandle, EncodeHandle, IsKey, Tables.TightlySeparated, TwoLevel.Flat,
         Modelled, Sorted;
    FileParts(t, filter);
    var file := Finished(t, filter);
    forall i | 0 <= i < |t.index|
      ensures LeadsTo(file, t.index[i], t.blocks[i], t.offsets[i]) && IsKey(t.index[i].pair.key)
    {
      assert EntryWritten(t, i) && BlockWritten(t, i);
      var h := HandleOf(t, i);
      StartOfFile(file, |t.file|, h.offset, Raw(Image(t.blocks[i])));
      LiesWithin(file, h.offset, Raw(Image(t.blocks[i])));
      HandleRoundTrip(h, []);
      assert EncodeHandle(h) + [] == EncodeHandle(h);
    }
    LiesWithin(file, IndexHandle(t, filter).offset, Raw(Image(t.index)));
  }

  lemma LiesWithin(file: Bytes, offset: nat, b: Bytes)
    requires Lies(file, offset, b)
    ensures offset + |b| <= |file|
  {
  }

  lemma UsersKey(items: seq<Item>)
    ensures KeyedBy(RunOf(items), Users(items))
  {
    hide Decoded, KeyRank;
    forall e | e in RunOf(items) ensures exists u :: u in Users(items) && KeyRank(u) == e.ik.user {
      var i :| 0 <= i < |items| && RunOf(items)[i] == e;
      assert Users(items)[i] in Users(items);
      UserOfKey(items[i].pair);
    }
  }

  lemma UserOfKey(p: Pair)
    ensures EntryOf(p).ik.user == KeyRank(Decoded(p.key).user)
  {
    hide Decoded, KeyRank;
  }

  /** The filter found in the file denies no key that was added. */
  lemma FilterIsServing(filter: FilterBlockReader, t: Build, contents: Bytes)
    requires |t.offsets| == |t.blocks| && filter.Valid() && filter.data == contents
    requires AllMatched(filter.policy.hash, contents, UsersOf(t.blocks), t.offsets)
    ensures FilterServes(filter, UsersOf(t.blocks), t.offsets, t.blocks)
  {
    hide AllMatched, Users, RunOf, KeyedBy;
    forall i | 0 <= i < |t.blocks| ensures KeyedBy(RunOf(t.blocks[i]), UsersOf(t.blocks)[i]) {
      UsersKey(t.blocks[i]);
    }
  }

  // ------------------------------------------------------------------ Table

  /** Bytewise order. */
  function BytewiseLess(): (Bytes, Bytes) -> bool {
    (a: Bytes, b: Bytes) => Before(a, b)
  }

  lemma BytewiseIsTransitive()
    ensures Transitive(BytewiseLess())
  {
    hide Before;
    forall a, b, c | BytewiseLess()(a, b) && BytewiseLess()(b, c) ensures BytewiseLess()(a, c) {
      BeforeIsTransitive(a, b, c);
    }
  }

  /** What a policy of this name finds in the metaindex block. */
  lemma MetaSeeks(size: nat, filter: Option<FilterPart>, name: Bytes)
    ensures var items, key := MetaItems(size, filter), FilterKey(name);
            var n := BlockIters.FirstAtLeast(items, BytewiseLess(), key);
            (n < |items| && items[n].pair.key == key <==> filter.Some? && filter.value.name == name) &&
              (n < |items| ==> n == 0)
  {
    hide Before, EncodeHandle;
    if filter.Some? {
      var key, other := FilterKey(name), FilterKey(filter.value.name);
      BeforeIsTotal(key, key);
      assert key[7..] == name && other[7..] == filter.value.name;
    }
  }

  /** A policy that gives its filters the name of those in the file hashes as the policy that made them. */
  ghost predicate PolicyFits(policy: BloomFilterPolicy?, name: Bytes, t: Build, filter: Option<FilterPart>) {
    policy != null && filter.Some? && filter.value.name == name ==>
      && |t.offsets| == |t.blocks|
      && (|filter.value.contents| < WORD ==>
         AllMatched(policy.hash, filter.value.contents, UsersOf(t.blocks), t.offsets))
  }

  class Table {
    const file: Bytes
    const verify: bool
    const indexData: Bytes
    const filter: FilterBlockReader?

    // What the builder had written.
    ghost const t: Build
    ghost const pairs: seq<Pair>

    ghost predicate Valid() {
      && ClosedOk(t, pairs) && indexData == Image(t.index) && IsTable(file, t.index, t.blocks, t.offsets)
      && FilterServes(filter, UsersOf(t.blocks), t.offsets, t.blocks)
    }

    constructor (file: Bytes, verify: bool, indexData: Bytes, filter: FilterBlockReader?, ghost t: Build,
                 ghost pairs: seq<Pair>)
      requires ClosedOk(t, pairs) && indexData == Image(t.index) && IsTable(file, t.index, t.blocks, t.offsets)
      requires FilterServes(filter, UsersOf(t.blocks), t.offsets, t.blocks)
      ensures Valid() && this.pairs == pairs && this.filter == filter
    {
      hide ClosedOk, Image, IsTable, FilterServes;
      this.file, this.verify, this.indexData, this.filter := file, verify, indexData, filter;
      this.t, this.pairs := t, pairs;
    }

    /** Table::InternalGet with the key check of its callers: the newest entry of the user key at or below the
        sequence number among all pairs of the table. */
    method Get(user: Bytes, s: nat) returns (found: Option<Entry>)
      requires Valid() && s <= MAX_SEQUENCE
      ensures found == RunGet(RunOfPairs(pairs), KeyRank(user), s)
    {
      hide Image, IsTable, FilterServes, Tables.TightlySeparated, TwoLevel.Flat, Sorted, BlocksWritten, IndexWritten,
           RunGet, KeyRank;
      var e := InternalGet(file, indexData, filter, verify, user, s, t.index, t.blocks, UsersOf(t.blocks), t.offsets);
      found := if e.Some? && e.value.ik.user == KeyRank(user) then e else None;
    }
  }

  /** Table::ReadMeta and ReadFilter. */
  method ReadMeta(file: Bytes, meta: Handle, verify: bool, policy: BloomFilterPolicy?, name: Bytes,
                  ghost t: Build, ghost part: Option<FilterPart>)
    returns (filter: FilterBlockReader?)
    requires |file| < WORD && file == Finished(t, part) && meta == MetaHandle(t, part) &&
             PolicyFits(policy, name, t, part)
    requires |t.offsets| == |t.blocks|
    ensures FilterServes(filter, UsersOf(t.blocks), t.offsets, t.blocks)
    ensures filter != null <==> policy != null && part.Some? && part.value.name == name
  {
    hide Image, Raw, Lies, Finished, DecodeHandle, EncodeHandle, BlockIters.FirstAtLeast, AllMatched, ReadBlock,
         FilterServes, Transitive;
    hide BytewiseLess, MetaHandle, IndexHandle;
    if policy == null {
      NoFilterServes(t);
      return null;
    }
    FileParts(t, part);
    ghost var items := MetaItems(|t.file|, part);
    assert MetaHandle(t, part) == Handle(|WithFilter(t.file, part)|, |Image(items)|) by { MetaHandleIs(t, part); }
    BlockReads(file, meta.offset, Image(items), verify);
    LiesWithin(file, meta.offset, Raw(Image(items)));
    var contents := ReadBlock(file, meta, verify);
    BytewiseIsTransitive();
    MetaAscends(|t.file|, part);
    MetaSeeks(|t.file|, part, name);
    var found := SeekBlock(contents.value, BytewiseLess(), FilterKey(name), items);
    if found.None? || found.value.key != FilterKey(name) {
      NoFilterServes(t);
      return null;
    }
    filter := ReadFilter(file, found.value.value, verify, policy, t, part.value);
  }

  method ReadFilter(file: Bytes, value: Bytes, verify: bool, policy: BloomFilterPolicy, ghost t: Build,
                    ghost part: FilterPart)
    returns (filter: FilterBlockReader)
    requires |file| < WORD && |t.offsets| == |t.blocks| && Lies(file, |t.file|, Raw(part.contents))
    requires value == EncodeHandle(Handle(|t.file|, |part.contents|))
    requires |part.contents| < WORD ==> AllMatched(policy.hash, part.contents, UsersOf(t.blocks), t.offsets)
    ensures FilterServes(filter, UsersOf(t.blocks), t.offsets, t.blocks)
  {
    hide Raw, Lies, DecodeHandle, EncodeHandle, AllMatched, ReadBlock, FilterServes;
    LiesWithin(file, |t.file|, Raw(part.contents));
    HandleRoundTrip(Handle(|t.file|, |part.contents|), []);
    assert value + [] == value;
    var h := DecodeHandle(value);
    BlockReads(file, |t.file|, part.contents, verify);
    var contents := ReadBlock(file, h.value, verify);
    filter := new FilterBlockReader(policy, contents.value);
    FilterIsServing(filter, t, part.contents);
  }

  lemma NoFilterServes(t: Build)
    requires |t.offsets| == |t.blocks|
    ensures FilterServes(null, UsersOf(t.blocks), t.offsets, t.blocks)
  {
  }

  lemma MetaHandleIs(t: Build, part: Option<FilterPart>)
    ensures MetaHandle(t, part) == Handle(|WithFilter(t.file, part)|, |Image(MetaItems(|t.file|, part))|)
  {
  }

  lemma MetaAscends(size: nat, part: Option<FilterPart>)
    ensures var items := MetaItems(size, part);
            Blocks.Ascending(items, BytewiseLess()) && (items != [] ==> items[0].restart)
  {
    hide BytewiseLess, EncodeHandle;
  }

  /** The footer and the index block. */
  method ReadIndex(file: Bytes, verify: bool, ghost t: Build, ghost part: Option<FilterPart>)
    returns (footer: Option<Footer>, indexData: Option<Bytes>)
    requires |file| < WORD && file == Finished(t, part)
    ensures footer == Some(Footer(MetaHandle(t, part), IndexHandle(t, part))) && indexData == Some(Image(t.index))
  {
    hide Image, Raw, Lies, Finished, DecodeFooter, ReadBlock, MetaHandle;
    FooterReads(t, part);
    footer, indexData := None, None;
    if |file| < FOOTER_SIZE {
      return;
    }
    footer := DecodeFooter(file[|file| - FOOTER_SIZE..]);
    if footer.None? {
      return;
    }
    FileParts(t, part);
    BlockReads(file, IndexHandle(t, part).offset, Image(t.index), verify);
    indexData := ReadBlock(file, footer.value.index, verify);
  }

  /** Table::Open. */
  method Open(file: Bytes, verify: bool, policy: BloomFilterPolicy?, name: Bytes,
              ghost t: Build, ghost pairs: seq<Pair>, ghost part: Option<FilterPart>)
    returns (table: Table?)
    requires |file| < WORD && file == Finished(t, part) && ClosedOk(t, pairs) && PolicyFits(policy, name, t, part)
    ensures table != null && table.Valid() && table.pairs == pairs
    ensures table.filter != null <==> policy != null && part.Some? && part.value.name == name
  {
    hide Image, Finished, FilterServes, ClosedOk, IsTable, MetaHandle, IndexHandle, PolicyFits;
    table := null;
    var footer, indexData := ReadIndex(file, verify, t, part);
    if footer.None? || indexData.None? {
      return;
    }
    OffsetsOk(t, pairs);
    FileIsTable(t, pairs, part);
    var filter := ReadMeta(file, footer.value.metaindex, verify, policy, name, t, part);
    table := new Table(file, verify, indexData.value, filter, t, pairs);
  }

  lemma OffsetsOk(t: Build, pairs: seq<Pair>)
    requires ClosedOk(t, pairs)
    ensures |t.offsets| == |t.blocks|
  {
    hide IndexWritten, BlockWritten, Tables.TightlySeparated, TwoLevel.Flat, Sorted;
  }

  // ------------------------------------------------------------------ writing and reading together

  method WriteTable(options: Options, policy: BloomFilterPolicy?, name: Bytes, pairs: seq<Pair>)
    returns (file: Bytes, ghost part: Option<FilterPart>)
    requires options.interval >= 1 && (policy != null ==> 1 <= policy.k <= 30) && KeysOk(pairs)
    ensures file == TableFile(pairs, options, part)
    ensures PolicyFits(policy, name, Closed(Built(pairs, options), LastKey(pairs)), part)
    ensures (part.Some? <==> policy != null) && (part.Some? ==> part.value.name == name)
  {
    hide KeysOk, Built, Follows, Closed, LastKey, TableFile, AllMatched, TableBuilder.Valid,
         TableBuilder.FilterWritten, PolicyFits;
    var builder := new TableBuilder(options, policy, name);
    assert pairs[..0] == [];
    for i := 0 to |pairs|
      invariant fresh(builder.Repr()) && builder.Valid() && builder.pairs == pairs[..i]
    {
      PrefixFollows(pairs, i);
      builder.Add(pairs[i].key, pairs[i].value);
      assert pairs[..i + 1] == pairs[..i] + [pairs[i]];
    }
    assert pairs[..|pairs|] == pairs;
    part := builder.Finish();
    file := builder.file;
    if part.Some? { PolicyOfBuilder(builder, policy, name, Closed(Built(pairs, options), LastKey(pairs)), part); }
    NoPolicyFits(policy, name, Closed(Built(pairs, options), LastKey(pairs)), part);
  }

  lemma PolicyOfBuilder(builder: TableBuilder, policy: BloomFilterPolicy?, name: Bytes, t: Build,
                        part: Option<FilterPart>)
    requires policy != null && builder.filterBlock != null && builder.filterBlock.policy == policy &&
             builder.policyName == name
    requires part.Some? && builder.FilterWritten(t, part.value)
    ensures PolicyFits(policy, name, t, part) && part.value.name == name
  {
    hide AllMatched;
  }

  lemma NoPolicyFits(policy: BloomFilterPolicy?, name: Bytes, t: Build, part: Option<FilterPart>)
    ensures part.None? ==> PolicyFits(policy, name, t, part)
  {
    hide AllMatched;
  }

  lemma PrefixFollows(pairs: seq<Pair>, i: nat)
    requires KeysOk(pairs) && i < |pairs|
    ensures Follows(pairs[..i], pairs[i].key)
  {
    hide IsKey, InternalLess;
  }

  /** Any sorted pairs, written into a table below 4GB with any options, with or without a filter, and read back with
      or without verifying checksums: a lookup finds what the pairs hold. */
  method WriteThenGet(options: Options, policy: BloomFilterPolicy?, name: Bytes, pairs: seq<Pair>, verify: bool,
                      user: Bytes, s: nat)
    returns (file: Bytes, found: Option<Entry>)
    requires options.interval >= 1 && (policy != null ==> 1 <= policy.k <= 30) && KeysOk(pairs) && s <= MAX_SEQUENCE
    ensures |file| < WORD ==> found == RunGet(RunOfPairs(pairs), KeyRank(user), s)
  {
    hide KeysOk, Built, Closed, LastKey, Finished, PolicyFits, ClosedOk, RunGet, KeyRank, RunOfPairs;
    ghost var part;
    file, part := WriteTable(options, policy, name, pairs);
    found := None;
    if |file| < WORD {
      ClosedIsOk(pairs, options);
      ghost var t := Closed(Built(pairs, options), LastKey(pairs));
      var table := Open(file, verify, policy, name, t, pairs, part);
      found := table.Get(user, s);
    }
  }
}
