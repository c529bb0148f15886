/** How large blocks and table files are (table/block_builder.cc, table/table_builder.cc). */
module TableSizes {
  import opened Coding
  import opened Keys
  import opened Separators
  import opened Blocks
  import opened InternalKeys
  import opened TableFormat
  import opened TableBuilds

  // ------------------------------------------------------------------ blocks

  lemma ImageSize(items: seq<Item>)
    ensures |Image(items)| == |Body(items)| + 4 * |RestartItems(items)| + 4
  {
    hide Body, RestartItems;
  }

  lemma DeltaSize(prev: Bytes, item: Item)
    ensures var n, k, v := Shared(prev, item), |item.pair.key|, |item.pair.value|;
            n <= k && |Delta(prev, item)| == |Varint(n)| + |Varint(k - n)| + |Varint(v)| + (k - n) + v
  {
    hide Varint, Common;
  }

  lemma OneItemSize(p: Pair)
    ensures var k, v := |p.key|, |p.value|;
            |Image([Item(p, true)])| == 1 + |Varint(k)| + |Varint(v)| + k + v + 8
  {
    var items := [Item(p, true)];
    hide Delta;
    ImageSize(items);
    DeltaSize([], items[0]);
    assert items[..0] == [] && |Varint(0)| == 1;
  }

  /** A second entry that takes `n` bytes of its key from the first. */
  lemma TwoItemsSize(p: Pair, q: Pair, n: nat)
    requires Common(p.key, q.key) == n
    ensures n <= |q.key| &&
            |Image([Item(p, true), Item(q, false)])| ==
            |Image([Item(p, true)])| + |Varint(n)| + |Varint(|q.key| - n)| + |Varint(|q.value|)| + |q.key| - n +
              |q.value|
  {
    var one, two := [Item(p, true)], [Item(p, true), Item(q, false)];
    hide Delta, Common, Varint;
    ImageSize(one);
    ImageSize(two);
    DeltaSize(p.key, two[1]);
    BodyGrows(one, two[1]);
    assert one + [two[1]] == two && two[..1] == one;
    assert RestartItems(two) == [0] && RestartItems(one) == [0];
  }

  lemma VarintSizes(v: nat)
    ensures v < 128 ==> |Varint(v)| == 1
    ensures 128 <= v < 16384 ==> |Varint(v)| == 2
    ensures v < WORD ==> 1 <= |Varint(v)| <= 5
  {
    if v < WORD { Varint32RoundTrip(v, []); }
  }

  // ------------------------------------------------------------------ adding a pair

  /** A pair that does not fill the open block leaves the file as it is. */
  lemma AddStays(t: Build, last: Bytes, p: Pair, o: Options)
    requires |Image(WithItem(t, p, o).open)| < o.blockSize
    ensures var u := Added(t, last, p, o); u.file == t.file && u.open == WithItem(t, p, o).open
  {
    hide Image, EncodeHandle, SeparatorKey, Since;
  }

  /** A pair that fills it has the block written, with its trailer. */
  lemma AddFlushes(t: Build, last: Bytes, p: Pair, o: Options)
    requires |Image(WithItem(t, p, o).open)| >= o.blockSize
    ensures var u := Added(t, last, p, o);
            |u.file| == |t.file| + |Image(WithItem(t, p, o).open)| + 5 && u.open == []
  {
    hide Image, EncodeHandle, SeparatorKey, Trailer, Since;
  }

  lemma FirstInBlock(t: Build, p: Pair, o: Options)
    requires t.open == []
    ensures WithItem(t, p, o).open == [Item(p, true)]
  {
  }

  lemma SecondInBlock(t: Build, p: Pair, q: Pair, o: Options)
    requires t.open == [Item(p, true)] && o.interval > 1
    ensures WithItem(t, q, o).open == [Item(p, true), Item(q, false)]
  {
  }

  // ------------------------------------------------------------------ finished tables

  ghost predicate SmallKeys(items: seq<Item>) {
    forall i :: 0 <= i < |items| ==> |items[i].pair.key| <= 16 && |items[i].pair.value| <= 20
  }

  lemma {:induction false} SmallBody(items: seq<Item>)
    requires SmallKeys(items)
    ensures |Body(items)| <= 51 * |items|
  {
    hide Delta;
    if items != [] {
      var n := |items| - 1;
      SmallBody(items[..n]);
      var item := items[n];
      DeltaSize(PrevKey(items, n), item);
      VarintSizes(Shared(PrevKey(items, n), item));
      VarintSizes(|item.pair.key| - Shared(PrevKey(items, n), item));
      VarintSizes(|item.pair.value|);
    }
  }

  lemma {:induction false} FewRestarts(items: seq<Item>)
    ensures |RestartItems(items)| <= |items| + 1
  {
    if |items| > 1 { FewRestarts(items[..|items| - 1]); }
  }

  lemma SeparatorIsShort(last: Bytes, next: Bytes)
    requires |last| >= 8
    ensures |SeparatorKey(last, next)| <= |last| && |SuccessorKey(last)| <= |last|
  {
    hide Fixed64, DecodeFixed64, ShortestSeparator, ShortSuccessor, Before;
    var k := Decoded(last);
    assert |k.user| == |last| - 8;
  }

  lemma FinishedSize(t: Build)
    requires |t.file| < WORD && |Image(t.index)| < WORD
    ensures |Finished(t, None)| == |t.file| + |Image(t.index)| + 66
  {
    hide Image, EncodeFooter, Raw, DecodeFooter;
    EmptyBlockSize();
    var f1, meta, index := t.file, Image([]), Image(t.index);
    var f2 := f1 + Raw(meta);
    FooterRoundTrip(Handle(|f1|, |meta|), Handle(|f2|, |index|));
    assert Finished(t, None) == f2 + Raw(index) + EncodeFooter(Handle(|f1|, |meta|), Handle(|f2|, |index|)) by {
      NoMeta(t);
    }
  }

  lemma NoMeta(t: Build)
    ensures WithFilter(t.file, None) == t.file && MetaItems(|t.file|, None) == []
  {
  }

  /** What a table file holds beside its data blocks, without a filter: less than a hundred bytes and the index. */
  lemma FinishedBound(t: Build)
    requires |t.file| < WORD && |t.index| < 1000 && SmallKeys(t.index)
    ensures |Finished(t, None)| <= |t.file| + 55 * |t.index| + 100
  {
    hide Image, Body, RestartItems, Finished;
    ImageSize(t.index);
    SmallBody(t.index);
    FewRestarts(t.index);
    FinishedSize(t);
  }

  lemma EmptyBlockSize()
    ensures |Image([])| == 8
  {
  }
}
