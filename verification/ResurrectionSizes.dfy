/** How large the tables of the resurrection run are, and where a compaction cuts them: the sizes are those of the
    files that the table builder makes of them (table/table_builder.cc:94-139, 263; db/db_impl.cc:988-990). */
module ResurrectionSizes {
  import opened Coding
  import opened Keys
  import opened Separators
  import opened Ranks
  import opened Blocks
  import opened InternalKeys
  import opened TableFormat
  import opened TableBuilds
  import opened TableSizes

  /** What the option max_file_size is clipped to (db/db_impl.cc:104). */
  type Limit = n: nat | 0x10_0000 <= n <= 0x4000_0000 witness 0x10_0000

  // ------------------------------------------------------------------ entries as bytes

  /** User key `n` of the run is the number in eight bytes, most significant first. */
  function UserBytes(user: UserKey): (b: Bytes)
    ensures |b| == 8
  {
    [0, 0, 0, 0, 0, 0, 0, user.Floor % 256]
  }

  function KeyOf(e: Entry): Key {
    Key(UserBytes(e.ik.user), Packed(e.ik) % LONG)
  }

  /** An entry as it is added to a table; of the value only the length matters. */
  function PairOf(e: Entry): Pair {
    Pair(Encoded(KeyOf(e)), Padding(|e.value|))
  }

  function PairsOf(run: Run): (ps: seq<Pair>)
    ensures |ps| == |run|
  {
    seq(|run|, i requires 0 <= i < |run| => PairOf(run[i]))
  }

  /** A key of the run. */
  predicate SmallUser(user: UserKey) {
    0 <= user.Floor < 256 && user == user.Floor as real
  }

  lemma UsersEmbed(a: UserKey, b: UserKey)
    requires SmallUser(a) && SmallUser(b)
    ensures Before(UserBytes(a), UserBytes(b)) <==> a < b
    ensures UserBytes(a) == UserBytes(b) <==> a == b
  {
    var x, y := UserBytes(a), UserBytes(b);
    assert x[..7] == y[..7] && x[7] == a.Floor && y[7] == b.Floor;
    CommonIs(x, y, if a == b then 8 else 7);
  }

  /** The order of the run's entries is the order of their encoded keys. */
  lemma EntriesEmbed(a: Entry, b: Entry)
    requires SmallUser(a.ik.user) && SmallUser(b.ik.user) && a.ik.seqno <= MAX_SEQUENCE && b.ik.seqno <= MAX_SEQUENCE
    ensures Less(a.ik, b.ik) <==> InternalLess()(PairOf(a).key, PairOf(b).key)
  {
    hide UserBytes, Before, Encoded, Decoded;
    UsersEmbed(a.ik.user, b.ik.user);
    LessComparesTrailers(a.ik, b.ik);
    DecodedEncoded(KeyOf(a));
    DecodedEncoded(KeyOf(b));
  }

  // ------------------------------------------------------------------ sizes

  /** The default options, without a filter policy; this build has no Snappy. */
  const OPTIONS: Options := Options(4096, 16)

  /** The size of the table file that holds a run. */
  function SizeOf(run: Run): nat {
    |TableFile(PairsOf(run), OPTIONS, None)|
  }

  /** TableBuilder::FileSize once a run is added: the open block does not count. */
  function WrittenSize(run: Run): nat {
    |Built(PairsOf(run), OPTIONS).file|
  }

  // ------------------------------------------------------------------ the writes of the run

  function Filler(n: nat): (value: string)
    ensures |value| == n
  {
    seq(n, _ => 'x')
  }

  function E(user: UserKey, seqno: nat, typ: ValueType, value: string): Entry {
    Entry(IKey(user, seqno, typ), value)
  }

  // The writes: put 3, delete 3, put 1, put 2, put 4, put 1.
  function Put3(): Entry { E(3.0, 1, Value, "old") }
  function Del3(): Entry { E(3.0, 2, Deletion, "") }
  function Put1(m: Limit): Entry { E(1.0, 3, Value, Filler(m - 100)) }
  function Put2(): Entry { E(2.0, 4, Value, Filler(4067)) }
  function Put4(): Entry { E(4.0, 5, Value, "b") }
  function Again1(): Entry { E(1.0, 6, Value, "c") }

  lemma PairSizes(e: Entry)
    ensures |PairOf(e).key| == 16 && |PairOf(e).value| == |e.value|
  {
    hide Fixed64;
  }

  lemma PairsAre(a: Entry, b: Entry, c: Entry)
    ensures PairsOf([a]) == [PairOf(a)] && PairsOf([a, b]) == [PairOf(a), PairOf(b)]
    ensures PairsOf([a, b, c]) == [PairOf(a), PairOf(b), PairOf(c)]
  {
    hide PairOf;
  }

  lemma BuiltOne(p: Pair)
    ensures Built([p], OPTIONS) == Added(Build([], [], [], None, [], []), [], p, OPTIONS)
  {
    BuiltStep([p], OPTIONS);
    hide Added;
    assert [p][..0] == [];
  }

  lemma BuiltTwo(p: Pair, q: Pair)
    ensures Built([p, q], OPTIONS) == Added(Built([p], OPTIONS), p.key, q, OPTIONS)
  {
    hide Added, Built;
    BuiltStep([p, q], OPTIONS);
    assert [p, q][..1] == [p];
  }

  lemma BuiltThree(p: Pair, q: Pair, r: Pair)
    ensures Built([p, q, r], OPTIONS) == Added(Built([p, q], OPTIONS), q.key, r, OPTIONS)
  {
    hide Added, Built;
    BuiltStep([p, q, r], OPTIONS);
    assert [p, q, r][..2] == [p, q];
  }

  /** A small first entry stays in the open block. */
  lemma SmallStays(p: Pair)
    requires |p.key| == 16 && |p.value| <= 3
    ensures var t := Built([p], OPTIONS); t.file == [] && t.open == [Item(p, true)] && t.index == [] && t.pending.None?
  {
    var t := Build([], [], [], None, [], []);
    BuiltOne(p);
    FirstInBlock(t, p, OPTIONS);
    OneItemSize(p);
    VarintSizes(16);
    VarintSizes(|p.value|);
    hide Built, Image;
    AddStays(t, [], p, OPTIONS);
  }

  lemma FirstFills(m: Limit)
    ensures var p, t := PairOf(Put1(m)), Build([], [], [], None, [], []);
            m - 73 <= |Image(WithItem(t, p, OPTIONS).open)| <= m - 69
  {
    hide Image, PairOf, Filler;
    var p, t := PairOf(Put1(m)), Build([], [], [], None, [], []);
    FirstInBlock(t, p, OPTIONS);
    PairSizes(Put1(m));
    OneItemSize(p);
    VarintSizes(16);
    VarintSizes(m - 100);
  }

  /** The first block is full with the first value. */
  lemma FirstBlock(m: Limit)
    ensures var t := Built([PairOf(Put1(m))], OPTIONS);
            m - 68 <= |t.file| <= m - 64 && t.open == [] && t.pending.Some? && t.index == []
  {
    hide Built, Image, PairOf, Filler;
    var p, t := PairOf(Put1(m)), Build([], [], [], None, [], []);
    BuiltOne(p);
    FirstFills(m);
    AddFlushes(t, [], p, OPTIONS);
    FlushLeaves(t, [], p, OPTIONS);
  }

  lemma FlushLeaves(t: Build, last: Bytes, p: Pair, o: Options)
    requires |Image(WithItem(t, p, o).open)| >= o.blockSize
    ensures var u := Added(t, last, p, o);
            u.pending.Some? && |u.index| == |t.index| + (if t.pending.Some? then 1 else 0)
    ensures t.pending.None? ==> Added(t, last, p, o).index == t.index
    ensures t.pending.Some? ==>
              Added(t, last, p, o).index == WithIndexEntry(t, SeparatorKey(last, p.key)).index
  {
    hide Image, Raw, EncodeHandle, SeparatorKey;
  }

  lemma StayLeaves(t: Build, last: Bytes, p: Pair, o: Options)
    requires |Image(WithItem(t, p, o).open)| < o.blockSize
    ensures var u := Added(t, last, p, o);
            u.pending.None? &&
            u.index == if t.pending.Some? then WithIndexEntry(t, SeparatorKey(last, p.key)).index else t.index
  {
    hide Image, EncodeHandle, SeparatorKey;
  }

  /** The second value nearly fills the second block. */
  lemma SecondBlock(m: Limit)
    ensures var p, q := PairOf(Put1(m)), PairOf(Put2());
            var t, u := Built([p], OPTIONS), Built([p, q], OPTIONS);
            && u.file == t.file && u.open == [Item(q, true)] && |Image(u.open)| == 4095 && t.pending.Some?
            && u.pending.None? && u.index == WithIndexEntry(t, SeparatorKey(p.key, q.key)).index
  {
    hide Built, Image, PairOf, Filler, SeparatorKey;
    var p, q := PairOf(Put1(m)), PairOf(Put2());
    FirstBlock(m);
    BuiltTwo(p, q);
    var t := Built([p], OPTIONS);
    FirstInBlock(t, q, OPTIONS);
    PairSizes(Put2());
    OneItemSize(q);
    VarintSizes(16);
    VarintSizes(4067);
    AddStays(t, p.key, q, OPTIONS);
    StayLeaves(t, p.key, q, OPTIONS);
  }

  lemma KeysShareSeven()
    ensures Common(PairOf(Put2()).key, PairOf(Del3()).key) == 7
  {
    hide Fixed64, Filler;
    var a, b := PairOf(Put2()).key, PairOf(Del3()).key;
    assert a[..7] == b[..7] && a[7] == 2 && b[7] == 3;
    CommonIs(a, b, 7);
  }

  lemma ThirdFills(m: Limit)
    ensures var p, q, r := PairOf(Put1(m)), PairOf(Put2()), PairOf(Del3());
            |Image(WithItem(Built([p, q], OPTIONS), r, OPTIONS).open)| == 4107
  {
    hide Built, Image, PairOf, Filler, SeparatorKey, WithIndexEntry;
    var q, r := PairOf(Put2()), PairOf(Del3());
    SecondBlock(m);
    SecondInBlock(Built([PairOf(Put1(m)), q], OPTIONS), q, r, OPTIONS);
    KeysShareSeven();
    PairSizes(Del3());
    TwoItemsSize(q, r, 7);
    VarintSizes(7);
    VarintSizes(9);
    VarintSizes(0);
  }

  /** The deletion marker fills it: its twelve bytes complete the block that takes the file past the limit. */
  lemma MarkerFillsBlock(m: Limit)
    ensures var p, q, r := PairOf(Put1(m)), PairOf(Put2()), PairOf(Del3());
            var t, u := Built([p, q], OPTIONS), Built([p, q, r], OPTIONS);
            |u.file| == |t.file| + 4112 && u.open == [] && u.pending.Some? && u.index == t.index
  {
    hide Built, Image, PairOf, Filler, SeparatorKey, WithIndexEntry;
    var p, q, r := PairOf(Put1(m)), PairOf(Put2()), PairOf(Del3());
    SecondBlock(m);
    ThirdFills(m);
    BuiltThree(p, q, r);
    var t := Built([p, q], OPTIONS);
    AddFlushes(t, q.key, r, OPTIONS);
    FlushLeaves(t, q.key, r, OPTIONS);
  }

  /** Where the first compaction cuts: just behind the deletion marker, before the value it deletes. */
  lemma CutFallsBehindMarker(m: Limit)
    ensures WrittenSize([Put1(m), Put2()]) < m <= WrittenSize([Put1(m), Put2(), Del3()])
    ensures WrittenSize([Put3()]) == 0 && WrittenSize([Again1()]) == 0
  {
    hide Built, Image, PairOf, PairsOf, Filler, SeparatorKey, WithIndexEntry, Put1, Put2, Del3;
    FirstBlock(m);
    SecondBlock(m);
    MarkerFillsBlock(m);
    PairsAre(Put1(m), Put2(), Del3());
    PairsAre(Put3(), Put3(), Put3());
    PairsAre(Again1(), Again1(), Again1());
    PairSizes(Put3());
    PairSizes(Again1());
    SmallStays(PairOf(Put3()));
    SmallStays(PairOf(Again1()));
  }

  // ------------------------------------------------------------------ the two files below a flush

  lemma EntryIsSmall(t: Build, key: Bytes)
    requires t.pending.Some? && t.pending.value.offset < LONG && t.pending.value.size < LONG
    requires SmallKeys(t.index) && |key| <= 16
    ensures SmallKeys(WithIndexEntry(t, key).index)
  {
    hide EncodeHandle;
    HandleRoundTrip(t.pending.value, []);
  }

  lemma PendingHandleFits(t: Build, last: Bytes, p: Pair, o: Options)
    requires |Image(WithItem(t, p, o).open)| >= o.blockSize
    ensures var u := Added(t, last, p, o);
            u.pending.Some? && u.pending.value.offset <= |u.file| && u.pending.value.size <= |u.file|
  {
    hide Image, EncodeHandle, SeparatorKey;
  }

  /** A table without an open block gets its last index entry. */
  lemma ClosedSize(t: Build, last: Bytes)
    requires t.open == [] && t.pending.Some? && SmallKeys(t.index) && |t.index| < 10 && |last| == 16 && |t.file| < WORD
    requires t.pending.value.offset <= |t.file| && t.pending.value.size <= |t.file|
    ensures var c := Closed(t, last); c.file == t.file && |Finished(c, None)| <= |t.file| + 55 * (|t.index| + 1) + 100
  {
    hide EncodeHandle, Image, Finished, SuccessorKey;
    SeparatorIsShort(last, last);
    EntryIsSmall(t, SuccessorKey(last));
    FinishedBound(Closed(t, last));
  }

  lemma FirstTableSize()
    ensures SizeOf([Del3(), Put3()]) < 10000
  {
    hide Built, Image, PairOf, PairsOf, Finished, Closed, Flushed;
    var p, q := PairOf(Del3()), PairOf(Put3());
    PairsAre(Del3(), Put3(), Put3());
    PairSizes(Del3());
    PairSizes(Put3());
    SmallStays(p);
    BuiltTwo(p, q);
    TwoSmall(Built([p], OPTIONS), p, q);
    var t := Built([p, q], OPTIONS);
    FlushOfOpen(t);
    assert |Flushed(t).file| < 1000;
    ClosedSize(Flushed(t), q.key);
    ClosedTwice(t, q.key);
  }

  lemma ClosedTwice(t: Build, last: Bytes)
    ensures Closed(Flushed(t), last) == Closed(t, last)
  {
    hide Image, Raw, EncodeHandle, SuccessorKey;
  }

  lemma FlushOfOpen(t: Build)
    requires t.open != []
    ensures var u := Flushed(t);
            && u.open == [] && u.index == t.index && |u.file| == |t.file| + |Image(t.open)| + 5
            && u.pending == Some(Handle(|t.file|, |Image(t.open)|))
  {
    hide Image, Trailer;
  }

  lemma TwoSmall(t: Build, p: Pair, q: Pair)
    requires |p.key| == |q.key| == 16 && |p.value| <= 3 && |q.value| <= 3
    requires t.file == [] && t.open == [Item(p, true)] && t.index == [] && t.pending.None?
    ensures var u := Added(t, p.key, q, OPTIONS);
            u.file == [] && u.open != [] && |Image(u.open)| < 200 && u.index == [] && u.pending.None?
  {
    hide Image, Common;
    var n := Common(p.key, q.key);
    SecondInBlock(t, p, q, OPTIONS);
    OneItemSize(p);
    TwoItemsSize(p, q, n);
    VarintSizes(16);
    VarintSizes(|p.value|);
    VarintSizes(|q.value|);
    VarintSizes(n);
    VarintSizes(16 - n);
    AddStays(t, p.key, q, OPTIONS);
    StayLeaves(t, p.key, q, OPTIONS);
  }

  lemma CutTableSize(m: Limit)
    ensures SizeOf([Put1(m), Put2(), Del3()]) <= m + 5000
  {
    hide Built, Image, PairOf, PairsOf, Finished, Closed, Flushed, Filler, SeparatorKey, WithIndexEntry, Put1, Put2,
         Del3;
    var p, q, r := PairOf(Put1(m)), PairOf(Put2()), PairOf(Del3());
    PairsAre(Put1(m), Put2(), Del3());
    PairSizes(Put1(m));
    PairSizes(Del3());
    FirstBlock(m);
    SecondBlock(m);
    MarkerFillsBlock(m);
    var t, u := Built([p], OPTIONS), Built([p, q, r], OPTIONS);
    HandlesFit(m);
    SeparatorIsShort(p.key, q.key);
    EntryIsSmall(t, SeparatorKey(p.key, q.key));
    IndexOfOne(t, SeparatorKey(p.key, q.key));
    ClosedSize(u, r.key);
  }

  lemma IndexOfOne(t: Build, key: Bytes)
    requires t.pending.Some?
    ensures |WithIndexEntry(t, key).index| == |t.index| + 1
  {
    hide EncodeHandle;
  }

  lemma HandlesFit(m: Limit)
    ensures var p, q, r := PairOf(Put1(m)), PairOf(Put2()), PairOf(Del3());
            var t, u := Built([p], OPTIONS), Built([p, q, r], OPTIONS);
            && t.pending.Some? && t.pending.value.offset <= |t.file| && t.pending.value.size <= |t.file|
            && u.pending.Some? && u.pending.value.offset <= |u.file| && u.pending.value.size <= |u.file|
  {
    hide Built, Image, PairOf, Filler, SeparatorKey, WithIndexEntry, Added;
    var p, q, r := PairOf(Put1(m)), PairOf(Put2()), PairOf(Del3());
    FirstFills(m);
    BuiltOne(p);
    PendingHandleFits(Build([], [], [], None, [], []), [], p, OPTIONS);
    ThirdFills(m);
    BuiltThree(p, q, r);
    PendingHandleFits(Built([p, q], OPTIONS), q.key, r, OPTIONS);
  }
}
