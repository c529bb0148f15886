/** Opening a finished block and moving over its entries (table/block.cc): a cursor over the entries
    that were added. */
module BlockIters {
  import opened Coding
  import opened Blocks

  // ------------------------------------------------------------------ opening

  datatype Opened = BadBlock | EmptyBlock | OpenBlock(restartOffset: nat, numRestarts: nat)

  /** Block's constructor and NewIterator, for any contents. */
  function Open(contents: Bytes): (o: Opened)
    ensures o.OpenBlock? ==> o.numRestarts > 0 && o.restartOffset + 4 * o.numRestarts + 4 == |contents|
  {
    var size := |contents|;
    if size < 4 then BadBlock
    else
      var maxRestarts := (size - 4) / 4;
      var n := DecodeFixed32(contents[size - 4..]);
      if n > maxRestarts then BadBlock
      else if n == 0 then EmptyBlock
      else OpenBlock(size - (1 + n) * 4, n)
  }

  /** A finished block opens. */
  lemma ImageOpens(items: seq<Item>)
    requires |Image(items)| < WORD
    ensures Open(Image(items)) == OpenBlock(|Body(items)|, |RestartItems(items)|)
    ensures Image(items)[..|Body(items)|] == Body(items)
  {
    hide Body, Words, Restarts, RestartItems, DecodeFixed32;
    var c, n := Image(items), |RestartItems(items)|;
    var ws := Restarts(items) + [n % WORD];
    WordAt(Body(items), ws, [], n);
    assert c == Body(items) + Words(ws) + [];
    assert |c| - 4 == |Body(items)| + 4 * n;
  }

  lemma RestartReads(items: seq<Item>, j: nat)
    requires |Image(items)| < WORD && j < |RestartItems(items)|
    ensures |Body(items)| + 4 * j + 4 <= |Image(items)|
    ensures DecodeFixed32(Image(items)[|Body(items)| + 4 * j..]) == Off(items, RestartItems(items)[j])
  {
    hide Body, Words, RestartItems, DecodeFixed32, Off;
    var n := |RestartItems(items)|;
    var ws := Restarts(items) + [n % WORD];
    WordAt(Body(items), ws, [], j);
    assert Image(items) == Body(items) + Words(ws) + [];
    OffsAscend(items, RestartItems(items)[j], |items|);
    OffEnds(items);
  }

  /** What parsing entry `i` of a finished block reads. */
  lemma EntryReads(items: seq<Item>, i: nat)
    requires i < |items| && |Image(items)| < WORD
    ensures Off(items, i) < Off(items, i + 1) <= |Body(items)| <= |Image(items)|
    ensures var n := Shared(PrevKey(items, i), items[i]);
            var key, value := items[i].pair.key, items[i].pair.value;
            var p := DecodeEntry(Image(items)[Off(items, i)..|Body(items)|]);
            && p.Parsed? && p.value == (n, |key| - n, |value|)
            && |p.rest| == |key| - n + |value| + |Body(items)| - Off(items, i + 1)
            && p.rest[..|key| - n] == key[n..]
    ensures var end := Off(items, i + 1);
            |items[i].pair.value| <= end && Image(items)[end - |items[i].pair.value|..end] == items[i].pair.value
  {
    hide Off, Body, Image, DecodeEntry, Shared;
    var image, body := Image(items), Body(items);
    var n := Shared(PrevKey(items, i), items[i]);
    var key, value := items[i].pair.key, items[i].pair.value;
    var start, end := Off(items, i), Off(items, i + 1);
    ImageOpens(items);
    EntryDecodes(items, i);
    assert image[start..|body|] == body[start..];
    ValueAt(items, i);
    assert image[end - |value|..end] == body[end - |value|..end];
  }

  /** The value of entry `i` ends where the next entry begins. */
  lemma ValueAt(items: seq<Item>, i: nat)
    requires i < |items|
    ensures |items[i].pair.value| <= Off(items, i + 1) <= |Body(items)|
    ensures var end := Off(items, i + 1);
            Body(items)[end - |items[i].pair.value|..end] == items[i].pair.value
  {
    hide Off, Body, Varint, Shared;
    var body, prev, value := Body(items), PrevKey(items, i), items[i].pair.value;
    var start, end := Off(items, i), Off(items, i + 1);
    var d := Delta(prev, items[i]);
    EntryAt(items, i);
    OffStep(items, i);
    OffsAscend(items, i + 1, |items|);
    OffEnds(items);
    assert d[|d| - |value|..] == value;
    assert body[start..end] == d;
    assert body[end - |value|..end] == body[start..end][|d| - |value|..];
  }

  /** The index of the first entry at or after the target. */
  function FirstAtLeast(items: seq<Item>, less: (Bytes, Bytes) -> bool, target: Bytes): (i: nat)
    ensures i <= |items|
    ensures forall j :: 0 <= j < i ==> less(items[j].pair.key, target)
    ensures i < |items| ==> !less(items[i].pair.key, target)
  {
    if items == [] || !less(items[0].pair.key, target) then 0 else 1 + FirstAtLeast(items[1..], less, target)
  }

  lemma FirstAtLeastIs(items: seq<Item>, less: (Bytes, Bytes) -> bool, target: Bytes, i: nat)
    requires i <= |items| && forall j :: 0 <= j < i ==> less(items[j].pair.key, target)
    requires i < |items| ==> !less(items[i].pair.key, target)
    ensures FirstAtLeast(items, less, target) == i
  {
  }

  // ------------------------------------------------------------------ Block::Iter

  class Iter {
    const less: (Bytes, Bytes) -> bool
    const data: Bytes
    // The offset and the number of the restart points.
    const restarts: nat
    const numRestarts: nat
    // The offset of the current entry; at or beyond `restarts` when not valid.
    var current: nat
    var restartIndex: nat
    var key: Bytes
    var valueStart: nat
    var valueLength: nat

    // The entries, and the one the iterator is at.
    ghost const items: seq<Item>
    ghost var pos: nat

    /** The iterator is over a finished block. */
    ghost predicate Layout() {
      && data == Image(items) && |data| < WORD
      && restarts == |Body(items)| && numRestarts == |RestartItems(items)|
      && (items != [] ==> items[0].restart)
    }

    /** Entry `i` is at the current restart point or after it, and not beyond the next one. */
    ghost predicate InRegion(i: nat)
      reads this
      requires Layout()
    {
      && restartIndex < numRestarts && RestartItems(items)[restartIndex] <= i
      && (restartIndex + 1 < numRestarts ==> i <= RestartItems(items)[restartIndex + 1])
    }

    ghost predicate AtEntry(i: nat)
      reads this
      requires Layout()
    {
      && i < |items| && current == Off(items, i) && key == items[i].pair.key && InRegion(i)
      && valueStart + valueLength == Off(items, i + 1) <= |data|
      && data[valueStart..valueStart + valueLength] == items[i].pair.value
    }

    ghost predicate AtEnd()
      reads this
    {
      current == restarts && restartIndex == numRestarts
    }

    ghost predicate Invariant()
      reads this
    {
      Layout() && pos <= |items| && if pos < |items| then AtEntry(pos) else AtEnd()
    }

    /** Parsing continues at entry `i`, whose key extends the key held. */
    ghost predicate Ready(i: nat)
      reads this
      requires Layout()
    {
      && i <= |items| && valueStart + valueLength == Off(items, i)
      && restartIndex < numRestarts && RestartItems(items)[restartIndex] <= i
      && (i < |items| && !items[i].restart ==> key == PrevKey(items, i))
    }

    constructor (less: (Bytes, Bytes) -> bool, data: Bytes, restarts: nat, numRestarts: nat, ghost items: seq<Item>)
      requires data == Image(items) && |data| < WORD && (items != [] ==> items[0].restart)
      requires Open(data) == OpenBlock(restarts, numRestarts)
      ensures Invariant() && pos == |items| && this.items == items && this.less == less
    {
      ImageOpens(items);
      this.less, this.data, this.restarts, this.numRestarts := less, data, restarts, numRestarts;
      current, restartIndex := restarts, numRestarts;
      key, valueStart, valueLength := [], 0, 0;
      this.items := items;
      pos := |items|;
    }

    predicate Valid()
      requires Invariant()
      reads this
      ensures Valid() <==> pos < |items|
    {
      CurrentIsBelow();
      current < restarts
    }

    lemma CurrentIsBelow()
      requires Invariant()
      ensures current < restarts <==> pos < |items|
    {
      hide Body, RestartItems, Image;
      OffEnds(items);
      if pos < |items| {
        OffsAscend(items, pos, |items|);
      }
    }

    function Key(): (k: Bytes)
      requires Invariant() && Valid()
      reads this
      ensures k == items[pos].pair.key
    {
      key
    }

    function Value(): (v: Bytes)
      requires Invariant() && Valid()
      reads this
      ensures v == items[pos].pair.value
    {
      data[valueStart..valueStart + valueLength]
    }

    function NextEntryOffset(): nat
      reads this
    {
      valueStart + valueLength
    }

    function GetRestartPoint(index: nat): (offset: nat)
      requires Layout() && index < numRestarts
      ensures offset == Off(items, RestartItems(items)[index])
    {
      RestartPointReads(index);
      DecodeFixed32(data[restarts + index * 4..])
    }

    lemma RestartPointReads(index: nat)
      requires Layout() && index < numRestarts
      ensures restarts + index * 4 + 4 <= |data|
      ensures DecodeFixed32(data[restarts + index * 4..]) == Off(items, RestartItems(items)[index])
    {
      hide Body, Image, RestartItems, Off, DecodeFixed32;
      RestartReads(items, index);
    }

    method SeekToRestartPoint(index: nat)
      requires Layout() && index < numRestarts
      modifies this
      ensures restartIndex == index && Ready(RestartItems(items)[index])
    {
      hide Off, Body, Image;
      key := [];
      restartIndex := index;
      if items != [] { RestartItemsRestart(items, index); }
      valueStart, valueLength := GetRestartPoint(index), 0;
    }

    /** Parse entry `i`, which begins where the value held ends. */
    method ParseNextKey(ghost i: nat) returns (ok: bool)
      requires Layout() && Ready(i)
      modifies this
      ensures Invariant() && pos == i && ok == (i < |items|)
    {
      hide Off, Body, Image, RestartItems, DecodeEntry, Shared;
      pos := i;
      current := NextEntryOffset();
      OffEnds(items);
      OffOrders(items, i, |items|);
      if current >= restarts {
        // Past the last entry.
        current, restartIndex := restarts, numRestarts;
        return false;
      }
      EntryReads(items, i);
      var p := DecodeEntryFast(data[current..restarts]);
      var (shared, nonShared, length) := p.value;
      SharedPrefix(items, i);
      key := key[..shared];
      key := key + p.rest[..nonShared];
      valueStart, valueLength := restarts - |p.rest| + nonShared, length;
      AdvanceRestart(i);
      return true;
    }

    /** Advance the restart index to the region of the current entry. */
    method AdvanceRestart(ghost i: nat)
      requires Layout() && i < |items| && current == Off(items, i)
      requires restartIndex < numRestarts && RestartItems(items)[restartIndex] <= i
      modifies this`restartIndex
      ensures InRegion(i)
    {
      hide Off, Body, Image, RestartItems;
      while restartIndex + 1 < numRestarts && GetRestartPoint(restartIndex + 1) < current
        invariant restartIndex < numRestarts && RestartItems(items)[restartIndex] <= i
      {
        OffOrders(items, RestartItems(items)[restartIndex + 1], i);
        restartIndex := restartIndex + 1;
      }
      if restartIndex + 1 < numRestarts {
        OffOrders(items, RestartItems(items)[restartIndex + 1], i);
      }
    }

    method SeekToFirst()
      requires Invariant()
      modifies this
      ensures Invariant() && pos == 0
    {
      hide Off, Body, Image, RestartItems;
      SeekToRestartPoint(0);
      var _ := ParseNextKey(0);
    }

    method SeekToLast()
      requires Invariant()
      modifies this
      ensures Invariant() && pos == if items == [] then 0 else |items| - 1
    {
      hide Off, Body, Image;
      OffEnds(items);
      SeekToRestartPoint(numRestarts - 1);
      ScanUntil(restarts, RestartItems(items)[restartIndex], |items|);
    }

    method Next()
      requires Invariant() && Valid()
      modifies this
      ensures Invariant() && pos == old(pos) + 1
    {
      hide Off, Body, Image, RestartItems;
      var _ := ParseNextKey(pos + 1);
    }

    /** Scan back to a restart point before the current entry, then forward again. */
    method Prev()
      requires Invariant() && Valid()
      modifies this
      ensures Invariant() && pos == if old(pos) == 0 then |items| else old(pos) - 1
    {
      hide Off, Body, Image;
      var original := current;
      while GetRestartPoint(restartIndex) >= original
        invariant restartIndex < numRestarts && pos == old(pos)
        decreases restartIndex
      {
        OffOrders(items, RestartItems(items)[restartIndex], pos);
        if restartIndex == 0 {
          // Past the last entry.
          current, restartIndex := restarts, numRestarts;
          pos := |items|;
          return;
        }
        restartIndex := restartIndex - 1;
      }
      OffOrders(items, RestartItems(items)[restartIndex], pos);
      SeekToRestartPoint(restartIndex);
      ScanUntil(original, RestartItems(items)[restartIndex], old(pos));
    }

    /** Parse entries from `i` on until the end of one reaches `limit`, the offset of entry `end`. */
    method ScanUntil(limit: nat, ghost i: nat, ghost end: nat)
      requires Layout() && Ready(i) && (i < end || i == |items|)
      requires end <= |items| && limit == Off(items, end)
      modifies this
      ensures Invariant() && pos == if i < end then end - 1 else i
    {
      hide Off, Body, Image, RestartItems;
      ghost var k := i;
      var ok := ParseNextKey(k);
      while ok && NextEntryOffset() < limit
        invariant Invariant() && pos == k && ok == (k < |items|)
        invariant k == i || k < end
        decreases |items| - k
      {
        OffOrders(items, k + 1, end);
        k := k + 1;
        ok := ParseNextKey(k);
      }
      if ok {
        OffOrders(items, k + 1, end);
      }
    }

    /** Find the restart interval of the target by bisection, then walk through it. */
    method Seek(target: Bytes)
      requires Invariant() && Transitive(less) && Ascending(items, less)
      modifies this
      ensures Invariant() && pos == FirstAtLeast(items, less, target)
    {
      hide Off, Body, Image, RestartItems, FirstAtLeast, Transitive, Ascending;
      var left := FindRestart(target);
      ghost var i := RestartItems(items)[left];
      BeforeRestart(left, target);
      SeekToRestartPoint(left);
      while true
        invariant Layout() && Ready(i)
        invariant forall j :: 0 <= j < i ==> less(items[j].pair.key, target)
        decreases |items| - i
      {
        var ok := ParseNextKey(i);
        if !ok {
          FirstAtLeastIs(items, less, target, i);
          return;
        }
        if !less(key, target) {
          FirstAtLeastIs(items, less, target, i);
          return;
        }
        i := i + 1;
      }
    }

    method FindRestart(target: Bytes) returns (left: nat)
      requires Layout()
      ensures left < numRestarts
      ensures left > 0 ==> RestartKeyBefore(left, target)
    {
      hide Off, Body, Image, RestartItems, DecodeEntry, RestartKeyBefore;
      left := 0;
      var right := numRestarts - 1;
      while left < right
        invariant left <= right < numRestarts
        invariant left > 0 ==> RestartKeyBefore(left, target)
      {
        var mid := (left + right + 1) / 2;
        var regionOffset := GetRestartPoint(mid);
        RestartEntryReads(mid, target);
        var p := DecodeEntryFast(data[regionOffset..restarts]);
        var midKey := p.rest[..p.value.1];
        if less(midKey, target) {
          // All entries before `mid` are uninteresting.
          left := mid;
        } else {
          // All entries at or after `mid` are uninteresting.
          right := mid - 1;
        }
      }
    }

    ghost predicate RestartKeyBefore(index: nat, target: Bytes)
      requires Layout() && 0 < index < numRestarts
    {
      less(items[RestartItems(items)[index]].pair.key, target)
    }

    lemma RestartEntryReads(index: nat, target: Bytes)
      requires Layout() && 0 < index < numRestarts
      ensures var r := RestartItems(items)[index];
              && r < |items| && Off(items, r) <= restarts <= |data|
              && var p := DecodeEntry(data[Off(items, r)..restarts]);
                 && p.Parsed? && p.value.0 == 0 && p.value.1 <= |p.rest| && p.rest[..p.value.1] == items[r].pair.key
                 && (less(p.rest[..p.value.1], target) <==> RestartKeyBefore(index, target))
    {
      hide Off, Body, Image, DecodeEntry, Shared;
      var r := RestartItems(items)[index];
      EntryReads(items, r);
      RestartItemsRestart(items, index);
      SharedPrefix(items, r);
    }

    lemma BeforeRestart(index: nat, target: Bytes)
      requires Layout() && Transitive(less) && Ascending(items, less)
      requires index < numRestarts && (index > 0 ==> RestartKeyBefore(index, target))
      ensures forall j :: 0 <= j < RestartItems(items)[index] ==> less(items[j].pair.key, target)
    {
      hide Image, Body;
      var r := RestartItems(items)[index];
      forall j | 0 <= j < r ensures less(items[j].pair.key, target) {
        assert less(items[j].pair.key, items[r].pair.key);
      }
    }
  }

  /** The bytes shared with the key before, followed by the others, are the key. */
  lemma SharedPrefix(items: seq<Item>, i: nat)
    requires i < |items|
    ensures var key, n := items[i].pair.key, Shared(PrevKey(items, i), items[i]);
            key == PrevKey(items, i)[..n] + key[n..] && (items[i].restart ==> n == 0)
  {
  }
}
