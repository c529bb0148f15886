/** Writing a block and reading it back. */
module BlockRoundTrips {
  import opened Coding
  import opened Blocks
  import opened BlockBuilders
  import opened BlockIters

  ghost predicate SortedPairs(pairs: seq<Pair>, less: (Bytes, Bytes) -> bool) {
    forall i, j :: 0 <= i < j < |pairs| ==> less(pairs[i].key, pairs[j].key)
  }

  method Build(interval: nat, less: (Bytes, Bytes) -> bool, pairs: seq<Pair>)
    returns (contents: Bytes, ghost items: seq<Item>)
    requires interval >= 1 && Transitive(less) && SortedPairs(pairs, less)
    ensures contents == Image(items) && Pairs(items) == pairs
    ensures Spaced(items, interval) && Ascending(items, less)
  {
    hide Body, Image, Restarts, RestartItems, Spaced, Ascending, Transitive, Since, Pairs, SortedPairs, PrevKey;
    var builder := new BlockBuilder(interval, less);
    NoPairs(pairs);
    for n := 0 to |pairs|
      invariant fresh(builder) && builder.Valid() && !builder.finished && builder.less == less &&
                builder.interval == interval
      invariant Pairs(builder.items) == pairs[..n]
    {
      AddPair(builder, pairs, n);
    }
    AllPairs(pairs);
    items := builder.items;
    contents := builder.Finish();
  }

  method AddPair(builder: BlockBuilder, pairs: seq<Pair>, n: nat)
    requires builder.Valid() && !builder.finished && Transitive(builder.less)
    requires n < |pairs| && SortedPairs(pairs, builder.less) && Pairs(builder.items) == pairs[..n]
    modifies builder
    ensures builder.Valid() && !builder.finished && Pairs(builder.items) == pairs[..n + 1]
  {
    hide Body, Image, Restarts, RestartItems, Spaced, Ascending, Transitive, Since, Pairs, SortedPairs;
    ghost var before := builder.items;
    LastAdded(before, pairs, n, builder.less);
    builder.BufferEmptyIff();
    builder.Add(pairs[n].key, pairs[n].value);
    PairsGrow(before, builder.items[|before|], pairs, n);
  }

  lemma NoPairs(pairs: seq<Pair>)
    ensures Pairs([]) == pairs[..0]
  {
  }

  lemma AllPairs(pairs: seq<Pair>)
    ensures pairs[..|pairs|] == pairs
  {
  }

  lemma LastAdded(items: seq<Item>, pairs: seq<Pair>, n: nat, less: (Bytes, Bytes) -> bool)
    requires n < |pairs| && Pairs(items) == pairs[..n] && SortedPairs(pairs, less)
    ensures |items| == n && (n > 0 ==> less(PrevKey(items, n), pairs[n].key))
  {
    if n > 0 { assert Pairs(items)[n - 1] == pairs[n - 1]; }
  }

  lemma PairsGrow(items: seq<Item>, item: Item, pairs: seq<Pair>, n: nat)
    requires n < |pairs| && Pairs(items) == pairs[..n] && item.pair == pairs[n]
    ensures Pairs(items + [item]) == pairs[..n + 1]
  {
    assert Pairs(items + [item]) == Pairs(items) + [item.pair];
  }

  method Opening(contents: Bytes, less: (Bytes, Bytes) -> bool, ghost items: seq<Item>) returns (iter: Iter)
    requires contents == Image(items) && |contents| < WORD && (items != [] ==> items[0].restart)
    ensures fresh(iter) && iter.Invariant() && iter.items == items && iter.less == less
  {
    hide Body, Image, RestartItems, Off;
    ImageOpens(items);
    var o := Open(contents);
    iter := new Iter(less, contents, o.restartOffset, o.numRestarts, items);
  }

  method ScanForward(iter: Iter) returns (pairs: seq<Pair>)
    requires iter.Invariant()
    modifies iter
    ensures iter.Invariant() && pairs == Pairs(iter.items)
  {
    hide Body, Image, RestartItems, Off;
    pairs := [];
    iter.SeekToFirst();
    while iter.Valid()
      invariant iter.Invariant() && pairs == Pairs(iter.items)[..iter.pos]
      decreases |iter.items| - iter.pos
    {
      pairs := pairs + [Pair(iter.Key(), iter.Value())];
      iter.Next();
    }
  }

  method ScanBackward(iter: Iter) returns (pairs: seq<Pair>)
    requires iter.Invariant()
    modifies iter
    ensures iter.Invariant() && |pairs| == |iter.items|
    ensures forall i :: 0 <= i < |pairs| ==> pairs[i] == Pairs(iter.items)[|pairs| - 1 - i]
  {
    hide Body, Image, RestartItems, Off;
    pairs := [];
    iter.SeekToLast();
    ghost var n := |iter.items|;
    while iter.Valid()
      invariant iter.Invariant() && |pairs| == if iter.pos < n then n - 1 - iter.pos else n
      invariant forall i :: 0 <= i < |pairs| ==> pairs[i] == Pairs(iter.items)[n - 1 - i]
      decreases n - |pairs|
    {
      pairs := pairs + [Pair(iter.Key(), iter.Value())];
      iter.Prev();
    }
  }

  /** Any sorted pairs, written with any restart interval into a block below 4GB, read back in both
      directions. */
  method RoundTrip(interval: nat, less: (Bytes, Bytes) -> bool, pairs: seq<Pair>)
    returns (contents: Bytes, forward: seq<Pair>, backward: seq<Pair>)
    requires interval >= 1 && Transitive(less) && SortedPairs(pairs, less)
    ensures |contents| < WORD ==> forward == pairs && |backward| == |pairs|
    ensures |contents| < WORD ==> forall i :: 0 <= i < |backward| ==> backward[i] == pairs[|pairs| - 1 - i]
  {
    hide Body, Image, RestartItems, Off, Ascending, Transitive;
    ghost var items;
    contents, items := Build(interval, less, pairs);
    forward, backward := [], [];
    if |contents| < WORD {
      var iter := Opening(contents, less, items);
      forward := ScanForward(iter);
      backward := ScanBackward(iter);
    }
  }
}
