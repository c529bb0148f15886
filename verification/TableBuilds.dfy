/** The bytes of a table file as a function of the pairs added (table/table_builder.cc), without compression, and
    what they hold. */
module TableBuilds {
  import opened Coding
  import opened Keys
  import opened Separators
  import opened Ranks
  import opened Blocks
  import opened InternalKeys
  import opened TableFormat
  import TwoLevel
  import Tables

  datatype Options = Options(blockSize: nat, interval: nat)

  /** A table being built: the file so far, the open block, the index block, the block whose index entry is not
      written yet, and the blocks written with their offsets. */
  datatype Build = Build(file: Bytes, open: seq<Item>, index: seq<Item>, pending: Option<Handle>,
                         blocks: seq<seq<Item>>, offsets: seq<nat>)

  // ------------------------------------------------------------------ adding and finishing

  /** BlockBuilder::Add. */
  function NextItem(items: seq<Item>, p: Pair, interval: nat): Item {
    Item(p, Since(items) == 0 || Since(items) == interval)
  }

  /** InternalKeyComparator::FindShortestSeparator and FindShortSuccessor on encoded keys. */
  function ReEncoded(key: Bytes, k: Key): Bytes
    requires k.trailer < LONG
  {
    if k == Decoded(key) then key else Encoded(k)
  }

  function SeparatorKey(last: Bytes, next: Bytes): Bytes {
    ReEncoded(last, Separator(Decoded(last), Decoded(next)))
  }

  function SuccessorKey(last: Bytes): Bytes {
    ReEncoded(last, Successor(Decoded(last)))
  }

  function WithIndexEntry(t: Build, key: Bytes): Build
    requires t.pending.Some?
  {
    t.(index := t.index + [NextItem(t.index, Pair(key, EncodeHandle(t.pending.value)), 1)], pending := None)
  }

  function WithItem(t: Build, p: Pair, o: Options): Build {
    t.(open := t.open + [NextItem(t.open, p, o.interval)])
  }

  function Flushed(t: Build): Build {
    if t.open == [] then t
    else
      var contents := Image(t.open);
      Build(t.file + Raw(contents), [], t.index, Some(Handle(|t.file|, |contents|)),
            t.blocks + [t.open], t.offsets + [|t.file|])
  }

  function Added(t: Build, last: Bytes, p: Pair, o: Options): Build {
    var t1 := if t.pending.Some? then WithIndexEntry(t, SeparatorKey(last, p.key)) else t;
    var t2 := WithItem(t1, p, o);
    if |Image(t2.open)| >= o.blockSize then Flushed(t2) else t2
  }

  function LastKey(pairs: seq<Pair>): Bytes {
    if pairs == [] then [] else pairs[|pairs| - 1].key
  }

  function Built(pairs: seq<Pair>, o: Options): Build {
    if pairs == [] then Build([], [], [], None, [], [])
    else
      var n := |pairs| - 1;
      Added(Built(pairs[..n], o), LastKey(pairs[..n]), pairs[n], o)
  }

  /** All data blocks written and indexed. */
  function Closed(t: Build, last: Bytes): Build {
    var f := Flushed(t);
    if f.pending.Some? then WithIndexEntry(f, SuccessorKey(last)) else f
  }

  /** The name of a filter policy and the contents of its filter block. */
  datatype FilterPart = FilterPart(name: Bytes, contents: Bytes)

  /** "filter." and the name. */
  function FilterKey(name: Bytes): Bytes {
    [102, 105, 108, 116, 101, 114, 46] + name
  }

  function MetaItems(size: nat, filter: Option<FilterPart>): seq<Item> {
    if filter.None? then []
    else [Item(Pair(FilterKey(filter.value.name), EncodeHandle(Handle(size, |filter.value.contents|))), true)]
  }

  function WithFilter(file: Bytes, filter: Option<FilterPart>): Bytes {
    if filter.None? then file else file + Raw(filter.value.contents)
  }

  /** The file of a closed table: filter block, metaindex block, index block, footer. */
  function Finished(t: Build, filter: Option<FilterPart>): Bytes {
    var f1 := WithFilter(t.file, filter);
    var meta := Image(MetaItems(|t.file|, filter));
    var f2 := f1 + Raw(meta);
    var index := Image(t.index);
    f2 + Raw(index) + EncodeFooter(Handle(|f1|, |meta|), Handle(|f2|, |index|))
  }

  function TableFile(pairs: seq<Pair>, o: Options, filter: Option<FilterPart>): Bytes {
    Finished(Closed(Built(pairs, o), LastKey(pairs)), filter)
  }

  // ------------------------------------------------------------------ what a build holds

  /** Blocks and their index keys as the model sees them. */
  ghost function Modelled(index: seq<Item>, blocks: seq<seq<Item>>): (bs: seq<TwoLevel.Block>)
    requires |index| == |blocks|
    ensures |bs| == |index|
  {
    seq(|index|, i requires 0 <= i < |index| =>
      TwoLevel.Block(Unpacked(Decoded(index[i].pair.key)), RunOf(blocks[i])))
  }

  function RunOfPairs(pairs: seq<Pair>): (r: Run)
    ensures |r| == |pairs|
  {
    seq(|pairs|, i requires 0 <= i < |pairs| => EntryOf(pairs[i]))
  }

  function HandleOf(t: Build, i: nat): Handle
    requires i < |t.blocks| == |t.offsets|
  {
    Handle(t.offsets[i], |Image(t.blocks[i])|)
  }

  ghost predicate BlockOk(items: seq<Item>) {
    items != [] ==> items[0].restart && Keyed(items)
  }

  ghost predicate BlockWritten(t: Build, i: nat)
    requires i < |t.blocks| == |t.offsets|
  {
    t.blocks[i] != [] && BlockOk(t.blocks[i]) && Lies(t.file, t.offsets[i], Raw(Image(t.blocks[i])))
  }

  ghost predicate BlocksWritten(t: Build) {
    |t.offsets| == |t.blocks| && BlockOk(t.open) && forall i :: 0 <= i < |t.blocks| ==> BlockWritten(t, i)
  }

  ghost predicate EntryWritten(t: Build, i: nat)
    requires i < |t.index| && i < |t.blocks| == |t.offsets|
  {
    t.index[i].pair.value == EncodeHandle(HandleOf(t, i)) && IsKey(t.index[i].pair.key)
  }

  ghost predicate IndexWritten(t: Build)
    requires |t.blocks| == |t.offsets|
  {
    && |t.blocks| == |t.index| + (if t.pending.Some? then 1 else 0)
    && (t.pending.Some? ==> t.open == [] && t.pending.value == HandleOf(t, |t.index|))
    && (t.index != [] ==> t.index[0].restart)
    && forall i :: 0 <= i < |t.index| ==> EntryWritten(t, i)
  }

  /** The entries not yet under an index entry. */
  function NextItems(t: Build): seq<Item>
    requires t.pending.Some? ==> t.blocks != []
  {
    if t.pending.Some? then t.blocks[|t.blocks| - 1] else t.open
  }

  ghost predicate Grown(t: Build, pairs: seq<Pair>)
    requires |t.blocks| == |t.index| + (if t.pending.Some? then 1 else 0)
  {
    Tables.Growing(Modelled(t.index, t.blocks[..|t.index|]), RunOf(NextItems(t)), RunOfPairs(pairs))
  }

  ghost predicate BuildOk(t: Build, pairs: seq<Pair>) {
    BlocksWritten(t) && IndexWritten(t) && Grown(t, pairs)
  }

  // ------------------------------------------------------------------ index keys

  /** The order of a separator and its neighbours carries over to encoded keys. */
  lemma SeparatorKeyFits(last: Bytes, next: Bytes)
    requires IsKey(last) && IsKey(next) && InternalLess()(last, next)
    ensures IsKey(SeparatorKey(last, next))
    ensures Tables.SeparatorFor(Unpacked(Decoded(last)), Unpacked(Decoded(SeparatorKey(last, next))),
            Unpacked(Decoded(next)))
  {
    hide Decoded, Encoded, Unpacked, Before, Tables.SeparatorFor, ShortestSeparator;
    var a, b := Decoded(last), Decoded(next);
    SeparatorLies(a, b);
    Tables.SeparatorFits(a, b, Separator(a, b));
    if Separator(a, b) != a { DecodedEncoded(Separator(a, b)); }
  }

  lemma SuccessorKeyFits(last: Bytes)
    requires IsKey(last)
    ensures IsKey(SuccessorKey(last))
    ensures Tables.SuccessorFor(Unpacked(Decoded(last)), Unpacked(Decoded(SuccessorKey(last))))
  {
    hide Decoded, Encoded, Unpacked, Before, Tables.SuccessorFor, ShortSuccessor;
    var a := Decoded(last);
    SuccessorLies(a);
    Tables.SuccessorFits(a, Successor(a));
    if Successor(a) != a { DecodedEncoded(Successor(a)); }
  }

  /** Encoded keys are ordered as the entries they stand for. */
  lemma LessIs(a: Bytes, b: Bytes)
    requires IsKey(a) && IsKey(b)
    ensures InternalLess()(a, b) <==> Less(Unpacked(Decoded(a)), Unpacked(Decoded(b)))
  {
    hide Decoded, Unpacked, KeyBefore, Less;
    UnpackedEmbeds(Decoded(a), Decoded(b));
  }

  // ------------------------------------------------------------------ one pair more

  lemma RunGrows(items: seq<Item>, item: Item, pairs: seq<Pair>)
    ensures RunOf(items + [item]) == RunOf(items) + [EntryOf(item.pair)]
    ensures RunOfPairs(pairs + [item.pair]) == RunOfPairs(pairs) + [EntryOf(item.pair)]
  {
    hide EntryOf;
  }

  lemma ModelGrows(index: seq<Item>, blocks: seq<seq<Item>>, item: Item, b: seq<Item>)
    requires |index| == |blocks|
    ensures Modelled(index + [item], blocks + [b]) ==
            Modelled(index, blocks) + [TwoLevel.Block(Unpacked(Decoded(item.pair.key)), RunOf(b))]
  {
    hide Decoded, Unpacked, RunOf;
  }

  /** A key may follow those added. */
  ghost predicate Follows(pairs: seq<Pair>, key: Bytes) {
    IsKey(key) && (pairs != [] ==> IsKey(LastKey(pairs)) && InternalLess()(LastKey(pairs), key))
  }

  lemma FollowsIs(pairs: seq<Pair>, p: Pair)
    requires Follows(pairs, p.key) && pairs != []
    ensures var r := RunOfPairs(pairs);
            r[|r| - 1].ik == Unpacked(Decoded(LastKey(pairs))) && Less(r[|r| - 1].ik, EntryOf(p).ik)
  {
    hide Decoded, Unpacked, Less, IsKey, InternalLess;
    LessIs(LastKey(pairs), p.key);
  }

  /** Without a pending index entry the pair joins the open block. */
  lemma OpenGrows(t: Build, pairs: seq<Pair>, p: Pair, o: Options)
    requires BuildOk(t, pairs) && t.pending.None? && Follows(pairs, p.key)
    ensures BuildOk(WithItem(t, p, o), pairs + [p])
  {
    hide IsKey, InternalLess, EntryOf, RunOf, RunOfPairs, Modelled, Image, EncodeHandle, Raw, Lies, Tables.Growing;
    var u, item := WithItem(t, p, o), NextItem(t.open, p, o.interval);
    OpenStaysOk(t.open, item);
    WrittenStays(t, u);
    RunGrows(t.open, item, pairs);
    if pairs != [] { FollowsIs(pairs, p); }
    NoneAdded(pairs);
    Tables.BlockGrows(Modelled(t.index, t.blocks[..|t.index|]), RunOf(t.open), RunOfPairs(pairs), EntryOf(p));
  }

  /** The open block ends with the last pair: what may follow the pairs may follow it. */
  lemma OpenFollows(t: Build, pairs: seq<Pair>, key: Bytes)
    requires BuildOk(t, pairs) && t.pending.None? && Follows(pairs, key) && t.open != []
    ensures InternalLess()(t.open[|t.open| - 1].pair.key, key)
  {
    hide IsKey, InternalLess, EntryOf, Modelled, Image, EncodeHandle, Raw, Lies, Tables.Growing, Decoded, Unpacked,
         Less;
    var n, last, r := |t.index|, t.open[|t.open| - 1].pair, RunOfPairs(pairs);
    Tables.NextEndsAdded(Modelled(t.index, t.blocks[..n]), RunOf(t.open), r);
    assert IsKey(last.key) by { assert Keyed(t.open); }
    EntryKey(last);
    FollowsIs(pairs, Pair(key, []));
    EntryKey(Pair(key, []));
    LessIs(last.key, key);
  }

  /** An index key for the block that waits for one may follow the index keys written. */
  lemma IndexFollows(t: Build, pairs: seq<Pair>, key: Bytes)
    requires BuildOk(t, pairs) && t.pending.Some? && t.index != [] && IsKey(key) && pairs != [] && IsKey(LastKey(pairs))
    requires Tables.SuccessorFor(Unpacked(Decoded(LastKey(pairs))), Unpacked(Decoded(key)))
    ensures InternalLess()(t.index[|t.index| - 1].pair.key, key)
  {
    hide IsKey, InternalLess, EntryOf, RunOf, Image, Raw, Lies, Tables.Growing, Decoded, Unpacked, Less,
         Tables.SuccessorFor;
    hide EncodeHandle;
    var n, r := |t.index|, RunOfPairs(pairs);
    var bs := Modelled(t.index, t.blocks[..n]);
    BlockIsNotEmpty(t, n);
    EntryKey(pairs[|pairs| - 1]);
    Tables.IndexAscends(bs, RunOf(t.blocks[n]), r, Unpacked(Decoded(key)));
    assert EntryWritten(t, n - 1);
    LessIs(t.index[n - 1].pair.key, key);
  }

  lemma SeparatorIsSuccessor(last: Bytes, next: Bytes)
    requires IsKey(last) && IsKey(next) && InternalLess()(last, next)
    ensures Tables.SuccessorFor(Unpacked(Decoded(last)), Unpacked(Decoded(SeparatorKey(last, next))))
  {
    hide SeparatorKey, Decoded, Unpacked, InternalLess, IsKey;
    SeparatorKeyFits(last, next);
  }

  lemma NoneAdded(pairs: seq<Pair>)
    ensures pairs == [] <==> RunOfPairs(pairs) == []
  {
  }

  lemma OpenStaysOk(open: seq<Item>, item: Item)
    requires BlockOk(open) && IsKey(item.pair.key) && (open == [] ==> item.restart)
    ensures BlockOk(open + [item])
  {
    hide IsKey;
  }

  /** Blocks and index entries stay as they are while the open block changes. */
  lemma WrittenStays(t: Build, u: Build)
    requires BlocksWritten(t) && IndexWritten(t) && BlockOk(u.open)
    requires u.file == t.file && u.index == t.index && u.blocks == t.blocks && u.offsets == t.offsets
    requires u.pending == t.pending && (t.pending.Some? ==> u.open == [])
    ensures BlocksWritten(u) && IndexWritten(u)
  {
    hide Image, EncodeHandle, Raw, Lies, IsKey, BlockOk;
    forall i | 0 <= i < |u.blocks| ensures BlockWritten(u, i) { assert BlockWritten(t, i); }
    forall i | 0 <= i < |u.index| ensures EntryWritten(u, i) { assert EntryWritten(t, i); }
  }

  /** An index entry for the block that waits for it. */
  lemma EntryGrows(t: Build, key: Bytes)
    requires BlocksWritten(t) && IndexWritten(t) && t.pending.Some? && IsKey(key)
    ensures BlocksWritten(WithIndexEntry(t, key)) && IndexWritten(WithIndexEntry(t, key))
  {
    hide Image, EncodeHandle, Raw, Lies, IsKey, BlockOk;
    var u := WithIndexEntry(t, key);
    forall i | 0 <= i < |u.blocks| ensures BlockWritten(u, i) { assert BlockWritten(t, i); }
    forall i | 0 <= i < |u.index| ensures EntryWritten(u, i) {
      if i < |t.index| { assert EntryWritten(t, i); }
    }
  }

  /** With a pending index entry the key settles it and starts a new block. */
  lemma IndexGrows(t: Build, pairs: seq<Pair>, p: Pair, o: Options)
    requires BuildOk(t, pairs) && t.pending.Some? && Follows(pairs, p.key) && pairs != []
    ensures BuildOk(WithItem(WithIndexEntry(t, SeparatorKey(LastKey(pairs), p.key)), p, o), pairs + [p])
  {
    hide IsKey, InternalLess, EntryOf, RunOf, RunOfPairs, Modelled, Image, EncodeHandle, Raw, Lies, Tables.Growing,
         Tables.SeparatorFor;
    hide SeparatorKey, Decoded, Unpacked;
    var key, n := SeparatorKey(LastKey(pairs), p.key), |t.index|;
    SeparatorKeyFits(LastKey(pairs), p.key);
    var u := WithIndexEntry(t, key);
    EntryGrows(t, key);
    var w, item := WithItem(u, p, o), NextItem(u.open, p, o.interval);
    OpenStaysOk(u.open, item);
    WrittenStays(u, w);
    RunGrows([], item, pairs);
    NoRun();
    FollowsIs(pairs, p);
    assert t.blocks == t.blocks[..n] + [t.blocks[n]] && w.blocks[..n + 1] == t.blocks;
    ModelGrows(t.index, t.blocks[..n], w.index[n], t.blocks[n]);
    BlockIsNotEmpty(t, n);
    EntryKey(p);
    assert u.open == [] && w.open == [] + [item] && RunOf(w.open) == [EntryOf(p)];
    assert Modelled(w.index, w.blocks[..n + 1]) ==
           Modelled(t.index, t.blocks[..n]) + [TwoLevel.Block(Unpacked(Decoded(key)), RunOf(t.blocks[n]))];
    Tables.IndexGrows(Modelled(t.index, t.blocks[..n]), RunOf(t.blocks[n]), RunOfPairs(pairs), Unpacked(Decoded(key)),
      EntryOf(p));
  }

  lemma NoRun()
    ensures RunOf([]) == []
  {
  }

  lemma BlockIsNotEmpty(t: Build, i: nat)
    requires BlocksWritten(t) && i < |t.blocks|
    ensures t.blocks[i] != [] && RunOf(t.blocks[i]) != [] && BlockOk(t.blocks[i])
    ensures Lies(t.file, t.offsets[i], Raw(Image(t.blocks[i])))
  {
    hide Image, Raw, Lies, BlockOk, EntryOf;
    assert BlockWritten(t, i);
  }

  /** Writing the open block. */
  lemma FlushKeeps(t: Build, pairs: seq<Pair>)
    requires BuildOk(t, pairs)
    ensures BuildOk(Flushed(t), pairs)
  {
    hide Image, EncodeHandle, Raw, Lies, IsKey, BlockOk, RunOf, RunOfPairs, Modelled, Tables.Growing;
    if t.open != [] {
      var u := Flushed(t);
      FlushWrites(t);
      assert u.blocks[..|u.index|] == t.blocks[..|t.index|];
    }
  }

  lemma FlushWrites(t: Build)
    requires BlocksWritten(t) && IndexWritten(t) && t.open != []
    ensures BlocksWritten(Flushed(t)) && IndexWritten(Flushed(t))
  {
    hide Image, EncodeHandle, Raw, Lies, IsKey, Keyed;
    var u, contents := Flushed(t), Image(t.open);
    forall i | 0 <= i < |u.blocks| ensures BlockWritten(u, i) {
      if i < |t.blocks| {
        assert BlockWritten(t, i);
        StillLies(t.file, Raw(contents), t.offsets[i], Raw(Image(t.blocks[i])));
      } else {
        LiesAtEnd(t.file, Raw(contents));
      }
    }
    forall i | 0 <= i < |u.index| ensures EntryWritten(u, i) { assert EntryWritten(t, i); }
  }

  lemma AddedOk(t: Build, pairs: seq<Pair>, p: Pair, o: Options)
    requires BuildOk(t, pairs) && Follows(pairs, p.key) && (t.pending.Some? ==> pairs != [])
    ensures BuildOk(Added(t, LastKey(pairs), p, o), pairs + [p])
  {
    hide BuildOk, Flushed, WithItem, WithIndexEntry, SeparatorKey, Image, Follows;
    if t.pending.Some? { IndexGrows(t, pairs, p, o); } else { OpenGrows(t, pairs, p, o); }
    var u := if t.pending.Some? then WithIndexEntry(t, SeparatorKey(LastKey(pairs), p.key)) else t;
    FlushKeeps(WithItem(u, p, o), pairs + [p]);
  }

  ghost predicate KeysOk(pairs: seq<Pair>) {
    && (forall i :: 0 <= i < |pairs| ==> IsKey(pairs[i].key))
    && forall i, j :: 0 <= i < j < |pairs| ==> InternalLess()(pairs[i].key, pairs[j].key)
  }

  lemma KeysFollow(pairs: seq<Pair>)
    requires KeysOk(pairs) && pairs != []
    ensures KeysOk(pairs[..|pairs| - 1]) && Follows(pairs[..|pairs| - 1], LastKey(pairs))
    ensures pairs[..|pairs| - 1] + [pairs[|pairs| - 1]] == pairs
  {
    hide IsKey, InternalLess;
  }

  lemma BuiltStep(pairs: seq<Pair>, o: Options)
    requires pairs != []
    ensures var n := |pairs| - 1;
            Built(pairs, o) == Added(Built(pairs[..n], o), LastKey(pairs[..n]), pairs[n], o)
  {
    hide Added, LastKey;
  }

  lemma NothingBuilt(o: Options)
    ensures BuildOk(Built([], o), []) && Built([], o).pending.None?
  {
    Tables.NothingAdded();
    assert Modelled([], []) == [] && RunOf([]) == [] && RunOfPairs([]) == [];
  }

  /** Whatever sorted pairs are added, blocks, index and order are right. */
  lemma {:induction false} BuiltOk(pairs: seq<Pair>, o: Options)
    requires KeysOk(pairs)
    ensures BuildOk(Built(pairs, o), pairs)
    ensures Built(pairs, o).pending.Some? ==> pairs != []
  {
    hide BuildOk, Built, KeysOk, Added, Follows, LastKey;
    if pairs == [] {
      NothingBuilt(o);
    } else {
      var n := |pairs| - 1;
      KeysFollow(pairs);
      LastOf(pairs);
      BuiltOk(pairs[..n], o);
      BuiltStep(pairs, o);
      AddedOk(Built(pairs[..n], o), pairs[..n], pairs[n], o);
    }
  }

  lemma AddBuilds(pairs: seq<Pair>, p: Pair, o: Options)
    requires KeysOk(pairs) && Follows(pairs, p.key)
    ensures KeysOk(pairs + [p]) && LastKey(pairs + [p]) == p.key
    ensures Built(pairs + [p], o) == Added(Built(pairs, o), LastKey(pairs), p, o)
  {
    hide IsKey, Added, Built;
    var all := pairs + [p];
    assert all[..|all| - 1] == pairs;
    BuiltStep(all, o);
    hide InternalLess;
    InternalLessIsTransitive();
    forall i, j | 0 <= i < j < |all| ensures InternalLess()(all[i].key, all[j].key) {
      if j == |pairs| && i < j - 1 { assert InternalLess()(pairs[i].key, LastKey(pairs)); }
    }
  }

  /** The separator may be the next index key. */
  lemma IndexMayGrow(t: Build, pairs: seq<Pair>, key: Bytes)
    requires BuildOk(t, pairs) && Follows(pairs, key) && t.pending.Some? && pairs != []
    ensures t.index != [] ==> InternalLess()(t.index[|t.index| - 1].pair.key, SeparatorKey(LastKey(pairs), key))
  {
    hide BuildOk, SeparatorKey, InternalLess, IsKey, Decoded, Unpacked, LastKey;
    SeparatorKeyFits(LastKey(pairs), key);
    SeparatorIsSuccessor(LastKey(pairs), key);
    if t.index != [] { IndexFollows(t, pairs, SeparatorKey(LastKey(pairs), key)); }
  }

  lemma LastOf(pairs: seq<Pair>)
    requires pairs != []
    ensures LastKey(pairs) == pairs[|pairs| - 1].key
  {
  }

  // ------------------------------------------------------------------ a closed table

  /** The table holds the pairs, in blocks with the right index keys. */
  ghost predicate ClosedOk(t: Build, pairs: seq<Pair>) {
    && BlocksWritten(t) && IndexWritten(t) && t.pending.None?
    && Tables.TightlySeparated(Modelled(t.index, t.blocks))
    && Sorted(TwoLevel.Flat(Modelled(t.index, t.blocks)))
    && TwoLevel.Flat(Modelled(t.index, t.blocks)) == RunOfPairs(pairs)
  }

  lemma ClosedIsOk(pairs: seq<Pair>, o: Options)
    requires KeysOk(pairs)
    ensures ClosedOk(Closed(Built(pairs, o), LastKey(pairs)), pairs)
  {
    hide BlocksWritten, IndexWritten, Tables.TightlySeparated, TwoLevel.Flat, Modelled, Built, BuildOk, Flushed,
         SuccessorKey, KeysOk;
    var t := Built(pairs, o);
    BuiltOk(pairs, o);
    FlushKeeps(t, pairs);
    var f := Flushed(t);
    FlushedIs(t);
    if f.pending.Some? {
      LastIsKey(pairs);
      ClosesWithEntry(f, pairs);
    } else {
      ClosesEmpty(f, pairs);
    }
  }

  lemma FlushedIs(t: Build)
    ensures Flushed(t).open == []
  {
    hide Image, Raw;
  }

  lemma LastIsKey(pairs: seq<Pair>)
    requires KeysOk(pairs)
    ensures pairs != [] ==> IsKey(LastKey(pairs))
  {
    hide IsKey, InternalLess;
  }

  lemma ClosesWithEntry(t: Build, pairs: seq<Pair>)
    requires BuildOk(t, pairs) && t.pending.Some? && (pairs != [] ==> IsKey(LastKey(pairs)))
    ensures ClosedOk(WithIndexEntry(t, SuccessorKey(LastKey(pairs))), pairs)
  {
    hide IsKey, EntryOf, RunOf, Modelled, Image, EncodeHandle, Raw, Lies, Tables.Growing, Tables.SuccessorFor,
         Tables.TightlySeparated;
    hide SuccessorKey, Decoded, Unpacked, TwoLevel.Flat, BlocksWritten, EntryWritten;
    var n := |t.index|;
    BlockIsNotEmpty(t, n);
    var bs, next, added := Modelled(t.index, t.blocks[..n]), RunOf(t.blocks[n]), RunOfPairs(pairs);
    Tables.NextEndsAdded(bs, next, added);
    var key := SuccessorKey(LastKey(pairs));
    SuccessorKeyFits(LastKey(pairs));
    assert added[|added| - 1].ik == Unpacked(Decoded(LastKey(pairs))) by {
      assert added[|added| - 1] == EntryOf(pairs[|pairs| - 1]);
      EntryKey(pairs[|pairs| - 1]);
    }
    EntryGrows(t, key);
    var u := WithIndexEntry(t, key);
    assert t.blocks == t.blocks[..n] + [t.blocks[n]];
    ModelGrows(t.index, t.blocks[..n], u.index[n], t.blocks[n]);
    Tables.TableCloses(bs, next, added, Unpacked(Decoded(key)));
    AddedIsSorted(bs, next, added);
  }

  lemma EntryKey(p: Pair)
    ensures EntryOf(p).ik == Unpacked(Decoded(p.key))
  {
  }

  lemma AddedIsSorted(bs: seq<TwoLevel.Block>, next: Run, added: Run)
    requires Tables.Growing(bs, next, added)
    ensures Sorted(added)
  {
  }

  /** Without a block there is nothing in the table. */
  lemma ClosesEmpty(t: Build, pairs: seq<Pair>)
    requires BuildOk(t, pairs) && t.pending.None? && t.open == []
    ensures ClosedOk(t, pairs)
  {
    hide EntryOf, Image, EncodeHandle, Raw, Lies, EntryWritten, BlockWritten, Tables.Tight;
    NoRun();
    assert t.blocks == [];
    assert TwoLevel.Flat(Modelled(t.index, t.blocks)) == [];
    NoBlocks();
  }

  lemma NoBlocks()
    ensures Tables.TightlySeparated([])
  {
  }

  // ------------------------------------------------------------------ user keys

  function Users(items: seq<Item>): (us: seq<Bytes>)
    ensures |us| == |items|
  {
    seq(|items|, i requires 0 <= i < |items| => Decoded(items[i].pair.key).user)
  }

  function UsersOf(blocks: seq<seq<Item>>): (us: seq<seq<Bytes>>)
    ensures |us| == |blocks|
  {
    seq(|blocks|, i requires 0 <= i < |blocks| => Users(blocks[i]))
  }

  /** Every user key is added under the offset of its block. */
  ghost predicate UsersAdded(t: Build, added: set<(nat, Bytes)>)
    requires |t.offsets| == |t.blocks|
  {
    && (forall i, u :: 0 <= i < |t.blocks| && u in Users(t.blocks[i]) ==> (t.offsets[i], u) in added)
    && (forall u :: u in Users(t.open) ==> (|t.file|, u) in added)
  }

  lemma UsersGrow(items: seq<Item>, item: Item)
    ensures Users(items + [item]) == Users(items) + [Decoded(item.pair.key).user]
  {
    hide Decoded;
  }

  lemma FlushKeepsUsers(t: Build, added: set<(nat, Bytes)>)
    requires |t.offsets| == |t.blocks| && UsersAdded(t, added)
    ensures UsersAdded(Flushed(t), added)
  {
    hide Users, Image, Raw;
    assert Users([]) == [] by { NoUsers(); }
    var u := Flushed(t);
    forall i, user | 0 <= i < |u.blocks| && user in Users(u.blocks[i]) ensures (u.offsets[i], user) in added {}
  }

  lemma SameUsers(t: Build, u: Build, added: set<(nat, Bytes)>)
    requires |t.offsets| == |t.blocks| && UsersAdded(t, added)
    requires u.blocks == t.blocks && u.offsets == t.offsets && u.open == t.open && u.file == t.file
    ensures UsersAdded(u, added)
  {
  }

  lemma NoUsers()
    ensures Users([]) == []
  {
  }
}
