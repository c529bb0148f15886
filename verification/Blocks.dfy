/** Blocks: prefix-compressed entries with restart points (table/block_builder.cc), and what decoding
    an entry yields (table/block.cc). */
module Blocks {
  import opened Coding
  import opened Separators

  datatype Pair = Pair(key: Bytes, value: Bytes)

  /** An entry of a block; at a restart point the key is stored whole. */
  datatype Item = Item(pair: Pair, restart: bool)

  // ------------------------------------------------------------------ layout

  function PrevKey(items: seq<Item>, i: nat): Bytes
    requires i <= |items|
  {
    if i == 0 then [] else items[i - 1].pair.key
  }

  /** How many bytes of its key an entry takes from the key before. */
  function Shared(prev: Bytes, item: Item): (n: nat)
    ensures n <= |prev| && n <= |item.pair.key| && item.pair.key[..n] == prev[..n]
  {
    if item.restart then 0 else Common(prev, item.pair.key)
  }

  function Delta(prev: Bytes, item: Item): (b: Bytes)
    ensures |b| >= 3 && |b| >= |item.pair.value|
  {
    var n := Shared(prev, item);
    var key, value := item.pair.key, item.pair.value;
    Varint(n) + Varint(|key| - n) + Varint(|value|) + key[n..] + value
  }

  function Body(items: seq<Item>): Bytes {
    if items == [] then []
    else
      var n := |items| - 1;
      Body(items[..n]) + Delta(PrevKey(items, n), items[n])
  }

  /** The offset of entry `i`. */
  function Off(items: seq<Item>, i: nat): nat
    requires i <= |items|
  {
    |Body(items[..i])|
  }

  /** The entries at which the restart points lie; the first is there even in an empty block. */
  function RestartItems(items: seq<Item>): (r: seq<nat>)
    ensures |r| > 0 && r[0] == 0
    ensures forall j :: 0 <= j < |r| ==> r[j] <= |items| && (r[j] < |items| || (items == [] && j == 0))
    ensures forall j, k :: 0 <= j < k < |r| ==> r[j] < r[k]
  {
    if |items| <= 1 then [0]
    else
      var n := |items| - 1;
      if items[n].restart then RestartItems(items[..n]) + [n] else RestartItems(items[..n])
  }

  function Restarts(items: seq<Item>): (ws: seq<Word>)
    ensures |ws| == |RestartItems(items)|
  {
    var r := RestartItems(items);
    seq(|r|, j requires 0 <= j < |r| => Off(items, r[j]) % WORD)
  }

  /** A finished block. */
  function Image(items: seq<Item>): Bytes {
    Body(items) + Words(Restarts(items) + [|RestartItems(items)| % WORD])
  }

  /** Entries since the last restart point. */
  function Since(items: seq<Item>): (n: nat)
    ensures items == [] <==> n == 0
  {
    if items == [] then 0
    else if items[|items| - 1].restart then 1
    else Since(items[..|items| - 1]) + 1
  }

  /** A restart point comes exactly every `interval` entries. */
  predicate Spaced(items: seq<Item>, interval: nat) {
    forall i :: 0 <= i < |items| ==> (items[i].restart <==> i == 0 || Since(items[..i]) == interval)
  }

  ghost predicate Ascending(items: seq<Item>, less: (Bytes, Bytes) -> bool) {
    forall i, j :: 0 <= i < j < |items| ==> less(items[i].pair.key, items[j].pair.key)
  }

  ghost predicate Transitive(less: (Bytes, Bytes) -> bool) {
    forall a, b, c :: less(a, b) && less(b, c) ==> less(a, c)
  }

  function Pairs(items: seq<Item>): seq<Pair> {
    seq(|items|, i requires 0 <= i < |items| => items[i].pair)
  }

  // ------------------------------------------------------------------ lemmas on the layout

  lemma BodyGrows(items: seq<Item>, item: Item)
    ensures Body(items + [item]) == Body(items) + Delta(PrevKey(items, |items|), item)
  {
    var all := items + [item];
    assert all[..|items|] == items && PrevKey(all, |items|) == PrevKey(items, |items|);
  }

  lemma OffStep(items: seq<Item>, i: nat)
    requires i < |items|
    ensures Off(items, i + 1) == Off(items, i) + |Delta(PrevKey(items, i), items[i])|
    ensures Off(items, i) + 3 <= Off(items, i + 1)
  {
    hide Delta, Body;
    BodyGrows(items[..i], items[i]);
    assert items[..i + 1] == items[..i] + [items[i]] && PrevKey(items[..i], i) == PrevKey(items, i);
  }

  lemma {:induction false} OffsAscend(items: seq<Item>, i: nat, j: nat)
    requires i <= j <= |items|
    ensures Off(items, i) + 3 * (j - i) <= Off(items, j)
  {
    hide Off;
    if i < j {
      OffStep(items, j - 1);
      OffsAscend(items, i, j - 1);
    }
  }

  lemma OffEnds(items: seq<Item>)
    ensures Off(items, 0) == 0 && Off(items, |items|) == |Body(items)|
  {
    assert items[..|items|] == items && items[..0] == [];
  }

  /** From the offset of entry `i` on, the body starts with that entry's bytes. */
  lemma {:induction false} EntryAt(items: seq<Item>, i: nat)
    requires i < |items|
    ensures Off(items, i) <= |Body(items)|
    ensures Delta(PrevKey(items, i), items[i]) <= Body(items)[Off(items, i)..]
  {
    hide Delta;
    var n := |items| - 1;
    var d := Delta(PrevKey(items, n), items[n]);
    if i == n {
      assert Body(items)[Off(items, i)..] == d;
    } else {
      EntryAt(items[..n], i);
      assert items[..n][..i] == items[..i];
      assert Body(items)[Off(items, i)..] == Body(items[..n])[Off(items, i)..] + d;
    }
  }

  lemma RestartItemsGrow(items: seq<Item>, item: Item)
    requires items != []
    ensures RestartItems(items + [item]) == RestartItems(items) + if item.restart then [|items|] else []
  {
    assert (items + [item])[..|items|] == items;
  }

  /** Restart points store their keys whole. */
  lemma {:induction false} RestartItemsRestart(items: seq<Item>, j: nat)
    requires j < |RestartItems(items)| && items != [] && items[0].restart
    ensures RestartItems(items)[j] < |items| && items[RestartItems(items)[j]].restart
  {
    if |items| > 1 {
      var n := |items| - 1;
      if j < |RestartItems(items[..n])| {
        RestartItemsRestart(items[..n], j);
      }
    }
  }

  // ------------------------------------------------------------------ decoding an entry

  /** The shared length, the unshared length and the value length; the rest begins with the key delta. */
  function DecodeEntry(input: Bytes): (p: Parsed<(nat, nat, nat)>) {
    match GetVarint32(input)
    case Failed => Failed
    case Parsed(shared, a) =>
      match GetVarint32(a)
      case Failed => Failed
      case Parsed(nonShared, b) =>
        match GetVarint32(b)
        case Failed => Failed
        case Parsed(valueLength, rest) =>
          // The sum is taken in 32 bits.
          if |rest| < (nonShared + valueLength) % WORD then Failed else Parsed((shared, nonShared, valueLength), rest)
  }

  /** DecodeEntry with its fast path for three one-byte numbers. */
  method DecodeEntryFast(input: Bytes) returns (p: Parsed<(nat, nat, nat)>)
    ensures p == DecodeEntry(input)
  {
    hide GetVarint32;
    if |input| < 3 {
      ShortEntryFails(input);
      return Failed;
    }
    var shared: int, nonShared: int, valueLength: int := input[0], input[1], input[2];
    var rest: Bytes;
    if shared < 128 && nonShared < 128 && valueLength < 128 {
      OneByte(input);
      OneByte(input[1..]);
      OneByte(input[2..]);
      assert input[1..][1..] == input[2..] && input[2..][1..] == input[3..];
      rest := input[3..];
    } else {
      var v := GetVarint32Ptr(input);
      if v.Failed? { return Failed; }
      shared, rest := v.value, v.rest;
      v := GetVarint32Ptr(rest);
      if v.Failed? { return Failed; }
      nonShared, rest := v.value, v.rest;
      v := GetVarint32Ptr(rest);
      if v.Failed? { return Failed; }
      valueLength, rest := v.value, v.rest;
    }
    if |rest| < (nonShared + valueLength) % WORD {
      return Failed;
    }
    return Parsed((shared, nonShared, valueLength), rest);
  }

  lemma OneByte(input: Bytes)
    requires input != [] && input[0] < 128
    ensures GetVarint32(input) == Parsed(input[0], input[1..])
  {
  }

  lemma ShortEntryFails(input: Bytes)
    requires |input| < 3
    ensures DecodeEntry(input) == Failed
  {
    hide GetVarint32;
    ReadersTake(input);
    var p := GetVarint32(input);
    if p.Parsed? {
      ReadersTake(p.rest);
      var q := GetVarint32(p.rest);
      if q.Parsed? { ReadersTake(q.rest); }
    }
  }

  /** An entry decodes to its lengths, its key delta and its value. */
  lemma DeltaDecodes(prev: Bytes, item: Item, tail: Bytes)
    requires |item.pair.key| < WORD && |item.pair.key| - Shared(prev, item) + |item.pair.value| < WORD
    ensures var n := Shared(prev, item);
            DecodeEntry(Delta(prev, item) + tail) ==
            Parsed((n, |item.pair.key| - n, |item.pair.value|), item.pair.key[n..] + item.pair.value + tail)
  {
    hide GetVarint32, Varint, Shared;
    var n := Shared(prev, item);
    var key, value := item.pair.key, item.pair.value;
    var rest := key[n..] + value + tail;
    assert Delta(prev, item) + tail == Varint(n) + (Varint(|key| - n) + (Varint(|value|) + rest));
    Varint32RoundTrip(n, Varint(|key| - n) + (Varint(|value|) + rest));
    Varint32RoundTrip(|key| - n, Varint(|value|) + rest);
    Varint32RoundTrip(|value|, rest);
  }

  /** A key is no longer than the entries up to its own. */
  lemma {:induction false} KeysFit(items: seq<Item>, i: nat)
    requires i <= |items|
    ensures |PrevKey(items, i)| <= Off(items, i)
  {
    hide Common, Off, Delta;
    if i > 0 {
      KeysFit(items, i - 1);
      OffStep(items, i - 1);
      DeltaHolds(PrevKey(items, i - 1), items[i - 1]);
    }
  }

  /** What decoding at the offset of entry `i` yields. */
  lemma EntryDecodes(items: seq<Item>, i: nat)
    requires i < |items| && |Body(items)| < WORD
    ensures Off(items, i) < Off(items, i + 1) <= |Body(items)|
    ensures var n := Shared(PrevKey(items, i), items[i]);
            var key, value := items[i].pair.key, items[i].pair.value;
            DecodeEntry(Body(items)[Off(items, i)..]) ==
            Parsed((n, |key| - n, |value|), key[n..] + value + Body(items)[Off(items, i + 1)..])
  {
    hide Common, Off, Body, DecodeEntry, Delta;
    var body, prev := Body(items), PrevKey(items, i);
    var d := Delta(prev, items[i]);
    EntryAt(items, i);
    OffStep(items, i);
    OffsAscend(items, i + 1, |items|);
    OffEnds(items);
    KeysFit(items, i + 1);
    DeltaHolds(prev, items[i]);
    assert body[Off(items, i)..] == d + body[Off(items, i + 1)..];
    DeltaDecodes(prev, items[i], body[Off(items, i + 1)..]);
  }

  lemma DeltaHolds(prev: Bytes, item: Item)
    ensures |item.pair.key| - Shared(prev, item) + |item.pair.value| <= |Delta(prev, item)|
  {
  }

  /** Offsets order like entries. */
  lemma OffOrders(items: seq<Item>, i: nat, j: nat)
    requires i <= |items| && j <= |items|
    ensures Off(items, i) < Off(items, j) <==> i < j
    ensures Off(items, i) == Off(items, j) <==> i == j
  {
    hide Off;
    if i < j { OffsAscend(items, i, j); }
    if j < i { OffsAscend(items, j, i); }
  }
}
