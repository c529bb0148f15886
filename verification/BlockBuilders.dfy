/** Building a block entry by entry (table/block_builder.cc). */
module BlockBuilders {
  import opened Coding
  import opened Separators
  import opened Blocks

  class BlockBuilder {
    const interval: nat
    const less: (Bytes, Bytes) -> bool
    var buffer: Bytes
    var restarts: seq<Word>
    var counter: nat
    var finished: bool
    var lastKey: Bytes
    ghost var items: seq<Item>

    ghost predicate Valid()
      reads this
    {
      && interval >= 1 && counter <= interval
      && buffer == Body(items) && restarts == Restarts(items)
      && lastKey == PrevKey(items, |items|)
      && counter == Since(items)
      && Spaced(items, interval) && Ascending(items, less)
    }

    constructor (interval: nat, less: (Bytes, Bytes) -> bool)
      requires interval >= 1
      ensures Valid() && !finished && items == [] && this.interval == interval && this.less == less
    {
      this.interval, this.less := interval, less;
      buffer, restarts, counter, finished, lastKey, items := [], [0], 0, false, [], [];
    }

    method Reset()
      requires interval >= 1
      modifies this
      ensures Valid() && !finished && items == []
    {
      buffer, restarts, counter, finished, lastKey, items := [], [0], 0, false, [], [];
    }

    predicate Empty()
      requires Valid()
      reads this
      ensures Empty() <==> items == []
    {
      BufferEmptyIff();
      buffer == []
    }

    /** The size the block will have. */
    function CurrentSizeEstimate(): (n: nat)
      requires Valid()
      reads this
      ensures n == |Image(items)|
    {
      |buffer| + |restarts| * 4 + 4
    }

    method Add(key: Bytes, value: Bytes)
      requires Valid() && !finished && Transitive(less)
      requires buffer == [] || less(lastKey, key)
      modifies this
      ensures Valid() && !finished
      ensures items == old(items) + [Item(Pair(key, value), old(counter) == 0 || old(counter) == interval)]
    {
      hide Body, Restarts, Since, Spaced, Ascending, Transitive, Common, PrevKey;
      BufferEmptyIff();
      var item := Item(Pair(key, value), counter == 0 || counter >= interval);
      var shared := 0;
      if counter < interval {
        shared := CountShared(lastKey, key);
        NothingBefore(items, key);
      } else {
        restarts := restarts + [|buffer| % WORD];
        counter := 0;
      }
      buffer := PutEntry(buffer, items, item, shared);
      ItemsGrow(items, item, interval, less);
      lastKey := Extend(lastKey, key, shared);
      counter := counter + 1;
      items := items + [item];
    }

    /** The key just added, from the key before. */
    static method Extend(before: Bytes, key: Bytes, shared: nat) returns (lastKey: Bytes)
      requires shared <= |before| && shared <= |key| && key[..shared] == before[..shared]
      ensures lastKey == key
    {
      lastKey := before[..shared];
      lastKey := lastKey + key[shared..];
    }

    lemma BufferEmptyIff()
      requires Valid()
      ensures buffer == [] <==> items == []
      ensures counter == 0 <==> items == []
    {
    }

    method Finish() returns (contents: Bytes)
      requires Valid() && !finished
      modifies this`buffer, this`finished
      ensures contents == Image(items) && finished
    {
      hide Body, Restarts;
      buffer := PutWords(buffer, restarts);
      WordsGrow(restarts, |restarts| % WORD);
      buffer := buffer + Fixed32(|restarts| % WORD);
      finished := true;
      return buffer;
    }
  }

  /** How much sharing to do with the previous string. */
  method CountShared(a: Bytes, b: Bytes) returns (shared: nat)
    ensures shared == Common(a, b)
  {
    var minLength := if |a| < |b| then |a| else |b|;
    shared := 0;
    while shared < minLength && a[shared] == b[shared]
      invariant shared <= minLength && a[..shared] == b[..shared]
    {
      assert a[..shared + 1] == a[..shared] + [a[shared]] && b[..shared + 1] == b[..shared] + [b[shared]];
      shared := shared + 1;
    }
    CommonIs(a, b, shared);
  }

  lemma NothingBefore(items: seq<Item>, key: Bytes)
    ensures items == [] ==> Common(PrevKey(items, |items|), key) == 0
  {
  }

  /** Append an entry that shares `shared` bytes with the key before it. */
  method PutEntry(before: Bytes, ghost items: seq<Item>, item: Item, shared: nat) returns (buffer: Bytes)
    requires before == Body(items) && shared == Shared(PrevKey(items, |items|), item)
    ensures buffer == Body(items + [item])
  {
    hide Body, Varint;
    var key, value := item.pair.key, item.pair.value;
    var nonShared := |key| - shared;
    buffer := before;
    buffer := buffer + Varint(shared);
    buffer := buffer + Varint(nonShared);
    buffer := buffer + Varint(|value|);
    buffer := buffer + key[shared..];
    buffer := buffer + value;
    BodyGrows(items, item);
    assert buffer == before + (Varint(shared) + Varint(nonShared) + Varint(|value|) + key[shared..] + value);
  }

  lemma RestartsGrow(items: seq<Item>, item: Item)
    ensures items != [] ==>
              Restarts(items + [item]) == Restarts(items) + if item.restart then [|Body(items)| % WORD] else []
    ensures items == [] ==> Restarts(items + [item]) == Restarts(items) == [0]
  {
    hide Body;
    var all := items + [item];
    if items == [] {
      OffEnds(items);
      OffEnds(all);
    } else {
      RestartItemsGrow(items, item);
      assert all[..|items|] == items;
      var r := RestartItems(items);
      forall j | 0 <= j < |r| ensures Off(all, r[j]) == Off(items, r[j]) {
        assert all[..r[j]] == items[..r[j]];
      }
    }
  }

  /** All that one more entry changes in the layout. */
  lemma ItemsGrow(items: seq<Item>, item: Item, interval: nat, less: (Bytes, Bytes) -> bool)
    requires Spaced(items, interval) && (item.restart <==> items == [] || Since(items) == interval)
    requires Ascending(items, less) && Transitive(less)
    requires items == [] || less(PrevKey(items, |items|), item.pair.key)
    ensures items != [] ==>
              Restarts(items + [item]) == Restarts(items) + if item.restart then [|Body(items)| % WORD] else []
    ensures items == [] ==> Restarts(items + [item]) == Restarts(items) == [0]
    ensures Since(items + [item]) == if item.restart then 1 else Since(items) + 1
    ensures Spaced(items + [item], interval) && Ascending(items + [item], less)
    ensures PrevKey(items + [item], |items| + 1) == item.pair.key
  {
    hide Body, Restarts, Since, Spaced, Ascending, Transitive;
    RestartsGrow(items, item);
    SinceGrows(items, item);
    SpacedGrows(items, item, interval);
    AscendingGrows(items, item, less);
  }

  lemma SinceGrows(items: seq<Item>, item: Item)
    ensures Since(items + [item]) == if item.restart then 1 else Since(items) + 1
  {
    assert (items + [item])[..|items|] == items;
  }

  lemma SpacedGrows(items: seq<Item>, item: Item, interval: nat)
    requires Spaced(items, interval) && (item.restart <==> items == [] || Since(items) == interval)
    ensures Spaced(items + [item], interval)
  {
    var all := items + [item];
    forall i | 0 <= i < |all| ensures all[i].restart <==> i == 0 || Since(all[..i]) == interval {
      assert all[..i] == items[..i];
      assert items[..|items|] == items;
    }
  }

  lemma AscendingGrows(items: seq<Item>, item: Item, less: (Bytes, Bytes) -> bool)
    requires Ascending(items, less) && Transitive(less)
    requires items == [] || less(items[|items| - 1].pair.key, item.pair.key)
    ensures Ascending(items + [item], less)
  {
    var all := items + [item];
    forall i, j | 0 <= i < j < |all| ensures less(all[i].pair.key, all[j].pair.key) {
      if j == |items| && i < |items| - 1 {
        assert less(items[i].pair.key, items[|items| - 1].pair.key);
      }
    }
  }
}
