/** Filter blocks (table/filter_block.cc): one filter for the keys of the data blocks that start in
    the same 2KB of the file. */
module FilterBlocks {
  import opened Coding
  import opened Blooms

  const BASE_LG: Byte := 11
  const BASE: nat := 2048

  // ------------------------------------------------------------------ flattened keys

  function Concat(ks: seq<Bytes>): Bytes {
    if ks == [] then [] else Concat(ks[..|ks| - 1]) + ks[|ks| - 1]
  }

  /** Where key `i` begins in the concatenation. */
  function Start(ks: seq<Bytes>, i: nat): nat
    requires i <= |ks|
  {
    |Concat(ks[..i])|
  }

  function Starts(ks: seq<Bytes>): (s: seq<nat>) {
    seq(|ks|, i requires 0 <= i < |ks| => Start(ks, i))
  }

  lemma StartsGrow(ks: seq<Bytes>, key: Bytes)
    ensures Concat(ks + [key]) == Concat(ks) + key && Starts(ks + [key]) == Starts(ks) + [|Concat(ks)|]
  {
    assert (ks + [key])[..|ks|] == ks;
    assert forall i :: 0 <= i < |ks| ==> (ks + [key])[..i] == ks[..i];
  }

  lemma {:induction false} PieceIs(ks: seq<Bytes>, i: nat)
    requires i < |ks|
    ensures Start(ks, i) <= Start(ks, i + 1) <= |Concat(ks)|
    ensures Concat(ks)[Start(ks, i)..Start(ks, i + 1)] == ks[i]
  {
    var n := |ks| - 1;
    assert ks[..i + 1][..i] == ks[..i];
    if i == n {
      assert ks[..i + 1] == ks;
    } else {
      PieceIs(ks[..n], i);
      assert ks[..n][..i] == ks[..i] && ks[..n][..i + 1] == ks[..i + 1];
    }
  }

  // ------------------------------------------------------------------ what a filter block holds

  /** The end of filter `i` among filters that start at `positions`. */
  function Limit(positions: seq<nat>, size: nat, i: nat): nat
    requires i < |positions|
  {
    if i + 1 < |positions| then positions[i + 1] else size
  }

  /** Filter `i` is the filter of its keys; without keys it is empty. */
  ghost predicate FilterAt(hash: Bytes -> Word, k: nat, result: Bytes, positions: seq<nat>, keys: seq<Bytes>, i: nat)
    requires i < |positions|
  {
    && positions[i] <= Limit(positions, |result|, i) <= |result|
    && var filter := result[positions[i]..Limit(positions, |result|, i)];
       if keys == [] then filter == [] else FilterOf(hash, k, keys, filter)
  }

  ghost predicate Filters(hash: Bytes -> Word, k: nat, result: Bytes, positions: seq<nat>, groups: seq<seq<Bytes>>) {
    && |positions| == |groups|
    && (forall i :: 0 <= i < |groups| ==> FilterAt(hash, k, result, positions, groups[i], i))
  }

  /** One more filter at the end. */
  lemma FiltersGrow(hash: Bytes -> Word, k: nat, result: Bytes, positions: seq<nat>, groups: seq<seq<Bytes>>,
                    keys: seq<Bytes>, filter: Bytes)
    requires Filters(hash, k, result, positions, groups)
    requires if keys == [] then filter == [] else FilterOf(hash, k, keys, filter)
    ensures Filters(hash, k, result + filter, positions + [|result|], groups + [keys])
  {
    hide FilterOf;
    var r, ps := result + filter, positions + [|result|];
    forall i | 0 <= i < |groups + [keys]| ensures FilterAt(hash, k, r, ps, (groups + [keys])[i], i) {
      if i < |groups| {
        assert FilterAt(hash, k, result, positions, groups[i], i);
        assert Limit(ps, |r|, i) == Limit(positions, |result|, i);
        assert r[..|result|] == result;
        assert r[ps[i]..Limit(ps, |r|, i)] == r[..|result|][ps[i]..Limit(ps, |r|, i)];
      } else {
        assert ps[i] == |result| && Limit(ps, |r|, i) == |r| && r[ps[i]..|r|] == filter;
      }
    }
  }

  /** The key of `a` is in the group of the 2KB in which its block starts. */
  predicate Covers(groups: seq<seq<Bytes>>, a: (nat, Bytes)) {
    a.0 / BASE < |groups| && a.1 in groups[a.0 / BASE]
  }

  /** Offsets are kept in 32 bits. */
  function Truncated(positions: seq<nat>): (ws: seq<Word>)
    ensures |ws| == |positions|
  {
    seq(|positions|, i requires 0 <= i < |positions| => positions[i] % WORD)
  }

  /** The finished block: filters, their offsets, the offset of the offsets, and the base. */
  function Layout(result: Bytes, positions: seq<nat>): Bytes {
    result + Words(Truncated(positions + [|result|])) + [BASE_LG]
  }

  // ------------------------------------------------------------------ the builder

  class FilterBlockBuilder {
    const policy: BloomFilterPolicy
    // The keys since the last filter, flattened, and where each begins.
    var keys: Bytes
    var start: seq<nat>
    var result: Bytes
    var filterOffsets: seq<Word>

    // The keys of each filter written, and of the next one.
    ghost var groups: seq<seq<Bytes>>
    ghost var pending: seq<Bytes>
    ghost var positions: seq<nat>
    // The block being built, and every key added with the offset of its block.
    ghost var blockOffset: nat
    ghost var added: set<(nat, Bytes)>

    ghost predicate Coherent()
      reads this
    {
      && 1 <= policy.k <= 30
      && keys == Concat(pending) && start == Starts(pending)
      && Filters(policy.hash, policy.k, result, positions, groups)
      && filterOffsets == Truncated(positions)
      && (forall a :: a in added ==> Covers(groups + [pending], a))
    }

    ghost predicate Valid()
      reads this
    {
      Coherent() && blockOffset / BASE == |groups|
    }

    constructor (policy: BloomFilterPolicy)
      requires 1 <= policy.k <= 30
      ensures Valid() && this.policy == policy && added == {} && blockOffset == 0
    {
      this.policy := policy;
      keys, start, result, filterOffsets := [], [], [], [];
      groups, pending, positions, blockOffset, added := [], [], [], 0, {};
    }

    method StartBlock(offset: nat)
      requires Valid() && blockOffset <= offset
      modifies this
      ensures Valid() && added == old(added) && blockOffset == offset
    {
      var filterIndex := offset / BASE;
      while filterIndex > |filterOffsets|
        invariant |filterOffsets| <= filterIndex && added == old(added) && Coherent()
      {
        GenerateFilter();
      }
      blockOffset := offset;
    }

    method AddKey(key: Bytes)
      requires Valid()
      modifies this
      ensures Valid() && added == old(added) + {(blockOffset, key)} && blockOffset == old(blockOffset)
    {
      hide Filters, Concat, Starts;
      StartsGrow(pending, key);
      start := start + [|keys|];
      keys := keys + key;
      CoversPending(groups, pending, added, blockOffset, key);
      pending := pending + [key];
      added := added + {(blockOffset, key)};
    }

    method GenerateFilter()
      requires Coherent()
      modifies this`keys, this`start, this`result, this`filterOffsets, this`groups, this`pending, this`positions
      ensures Coherent() && groups == old(groups) + [old(pending)] && pending == []
    {
      hide Filters, FilterOf, Concat, Starts;
      CoversNext(groups, pending, added);
      TruncatedGrows(positions, |result|);
      NoKeys();
      var numKeys := |start|;
      KeysInStarts(pending);
      if numKeys == 0 {
        // Nothing was added since the last filter.
        FiltersGrow(policy.hash, policy.k, result, positions, groups, pending, []);
        assert result + [] == result;
        filterOffsets := filterOffsets + [|result| % WORD];
        positions := positions + [|result|];
        groups, pending := groups + [pending], [];
        return;
      }
      var tmpKeys := Unflatten(pending, keys, start + [|keys|]);
      filterOffsets := filterOffsets + [|result| % WORD];
      var size := |result|;
      var appended := policy.CreateFilter(tmpKeys, result);
      FiltersGrow(policy.hash, policy.k, result, positions, groups, pending, appended[size..]);
      assert appended == result + appended[size..];
      positions := positions + [size];
      result := appended;
      keys, start := [], [];
      groups, pending := groups + [pending], [];
    }

    method Finish() returns (contents: Bytes)
      requires Valid()
      modifies this
      ensures added == old(added) && contents == Layout(result, positions)
      ensures Filters(policy.hash, policy.k, result, positions, groups)
      ensures forall a :: a in added ==> Covers(groups, a)
    {
      hide Filters, Concat, Starts;
      KeysInStarts(pending);
      if start != [] {
        GenerateFilter();
      }
      CoversAll(groups, added);
      var arrayOffset := |result| % WORD;
      contents := PutWords(result, filterOffsets);
      TruncatedGrows(positions, |result|);
      WordsGrow(filterOffsets, arrayOffset);
      contents := contents + Fixed32(arrayOffset);
      contents := contents + [BASE_LG];
    }
  }

  /** The keys between consecutive starts. */
  method Unflatten(ghost ks: seq<Bytes>, keys: Bytes, start: seq<nat>) returns (tmpKeys: seq<Bytes>)
    requires keys == Concat(ks) && start == Starts(ks) + [|keys|]
    ensures tmpKeys == ks
  {
    hide Concat;
    tmpKeys := [];
    assert ks[..|ks|] == ks;
    for i := 0 to |start| - 1
      invariant tmpKeys == ks[..i]
    {
      PieceIs(ks, i);
      assert start[i] == Start(ks, i) && start[i + 1] == Start(ks, i + 1);
      tmpKeys := tmpKeys + [keys[start[i]..start[i + 1]]];
    }
  }

  lemma NoKeys()
    ensures Concat([]) == [] && Starts([]) == []
  {
  }

  lemma KeysInStarts(ks: seq<Bytes>)
    ensures |Starts(ks)| == |ks|
  {
  }

  lemma TruncatedGrows(positions: seq<nat>, p: nat)
    ensures Truncated(positions + [p]) == Truncated(positions) + [p % WORD]
  {
  }

  lemma CoversPending(groups: seq<seq<Bytes>>, pending: seq<Bytes>, added: set<(nat, Bytes)>, offset: nat, key: Bytes)
    requires forall a :: a in added ==> Covers(groups + [pending], a)
    requires offset / BASE == |groups|
    ensures forall a :: a in added + {(offset, key)} ==> Covers(groups + [pending + [key]], a)
  {
    forall a | a in added + {(offset, key)} ensures Covers(groups + [pending + [key]], a) {
      if a in added { assert Covers(groups + [pending], a); }
    }
  }

  lemma CoversNext(groups: seq<seq<Bytes>>, pending: seq<Bytes>, added: set<(nat, Bytes)>)
    requires forall a :: a in added ==> Covers(groups + [pending], a)
    ensures forall a :: a in added ==> Covers(groups + [pending] + [[]], a)
  {
    forall a | a in added ensures Covers(groups + [pending] + [[]], a) {
      assert Covers(groups + [pending], a);
    }
  }

  lemma CoversAll(groups: seq<seq<Bytes>>, added: set<(nat, Bytes)>)
    requires forall a :: a in added ==> Covers(groups + [[]], a)
    ensures forall a :: a in added ==> Covers(groups, a)
  {
    forall a | a in added ensures Covers(groups, a) {
      assert Covers(groups + [[]], a);
    }
  }

  // ------------------------------------------------------------------ the reader

  /** What a reader finds at the end of a filter block. */
  datatype Trailer = Trailer(offset: nat, num: nat, baseLg: nat)

  function TrailerOf(contents: Bytes): (t: Trailer)
    ensures t.num > 0 ==> t.offset + 4 * t.num + 5 <= |contents|
  {
    var n := |contents|;
    if n < 5 then Trailer(0, 0, 0)
    else
      var lastWord := DecodeFixed32(contents[n - 5..]);
      if lastWord > n - 5 then Trailer(0, 0, contents[n - 1])
      else Trailer(lastWord, (n - 5 - lastWord) / 4, contents[n - 1])
  }

  /** `blockOffset >> lg`. */
  function Index(blockOffset: nat, lg: nat): nat {
    if lg == 0 then blockOffset else Index(blockOffset / 2, lg - 1)
  }

  /** What the reader answers, for any contents: malformed ones match everything. */
  predicate MayHold(hash: Bytes -> Word, contents: Bytes, blockOffset: nat, key: Bytes) {
    var t := TrailerOf(contents);
    var index := Index(blockOffset, t.baseLg);
    index < t.num ==>
      var start := DecodeFixed32(contents[t.offset + index * 4..]);
      var limit := DecodeFixed32(contents[t.offset + index * 4 + 4..]);
      if start <= limit && limit <= t.offset then Matches(hash, key, contents[start..limit]) else start != limit
  }

  class FilterBlockReader {
    const policy: BloomFilterPolicy
    const data: Bytes
    const offset: nat
    const num: nat
    const baseLg: nat

    ghost predicate Valid() {
      Trailer(offset, num, baseLg) == TrailerOf(data)
    }

    constructor (policy: BloomFilterPolicy, contents: Bytes)
      ensures Valid() && this.policy == policy && data == contents
    {
      this.policy := policy;
      data := contents;
      var n := |contents|;
      if n < 5 {
        // 1 byte for the base and 4 for the start of the offset array.
        offset, num, baseLg := 0, 0, 0;
      } else {
        var lastWord := DecodeFixed32(contents[n - 5..]);
        baseLg := contents[n - 1];
        if lastWord > n - 5 {
          offset, num := 0, 0;
        } else {
          offset := lastWord;
          num := (n - 5 - lastWord) / 4;
        }
      }
    }

    method KeyMayMatch(blockOffset: nat, key: Bytes) returns (may: bool)
      requires Valid()
      ensures may == MayHold(policy.hash, data, blockOffset, key)
    {
      hide Index, DecodeFixed32, Matches;
      var index := Index(blockOffset, baseLg);
      if index < num {
        var start := DecodeFixed32(data[offset + index * 4..]);
        var limit := DecodeFixed32(data[offset + index * 4 + 4..]);
        if start <= limit && limit <= offset {
          may := policy.KeyMayMatch(key, data[start..limit]);
          return;
        } else if start == limit {
          // A filter without bytes stands for no keys.
          return false;
        }
      }
      // Malformed contents deny nothing.
      return true;
    }
  }

  // ------------------------------------------------------------------ the two together

  lemma IndexBy16(blockOffset: nat, lg: nat)
    requires lg >= 4
    ensures Index(blockOffset, lg) == Index(blockOffset / 16, lg - 4)
  {
    assert blockOffset / 2 / 2 == blockOffset / 4 && blockOffset / 4 / 2 == blockOffset / 8;
    assert Index(blockOffset, lg) == Index(blockOffset / 2, lg - 1) == Index(blockOffset / 4, lg - 2) ==
           Index(blockOffset / 8, lg - 3);
  }

  lemma IndexIs(blockOffset: nat)
    ensures Index(blockOffset, BASE_LG) == blockOffset / BASE
  {
    IndexBy16(blockOffset, 11);
    IndexBy16(blockOffset / 16, 7);
    assert blockOffset / 16 / 16 == blockOffset / 256;
    var b := blockOffset / 256;
    assert Index(b, 3) == Index(b / 2, 2) == Index(b / 2 / 2, 1) == b / 2 / 2 / 2;
  }

  /** The trailer of a finished block reads back. */
  lemma LayoutReads(result: Bytes, positions: seq<nat>)
    requires |result| < WORD
    ensures TrailerOf(Layout(result, positions)) == Trailer(|result|, |positions|, BASE_LG)
  {
    hide DecodeFixed32, Words;
    var ws := Truncated(positions + [|result|]);
    var c := Layout(result, positions);
    WordAt(result, ws, [BASE_LG], |positions|);
    assert |c| - 5 == |result| + 4 * |positions|;
  }

  lemma OffsetReads(result: Bytes, positions: seq<nat>, i: nat)
    requires i <= |positions| && forall j :: 0 <= j < |positions| ==> positions[j] < WORD
    requires |result| < WORD
    ensures |Layout(result, positions)| >= |result| + 4 * i + 4
    ensures DecodeFixed32(Layout(result, positions)[|result| + 4 * i..]) == (positions + [|result|])[i]
  {
    hide DecodeFixed32, Words;
    WordAt(result, Truncated(positions + [|result|]), [BASE_LG], i);
  }

  /** What a finished filter block answers: for a block whose 2KB hold keys, what their filter
      answers; for one whose 2KB hold none, no; beyond the last filter, yes. */
  lemma AnswerIs(hash: Bytes -> Word, k: nat, result: Bytes, positions: seq<nat>, groups: seq<seq<Bytes>>,
                 blockOffset: nat, key: Bytes)
    requires Filters(hash, k, result, positions, groups) && |result| < WORD
    ensures var i := blockOffset / BASE;
            MayHold(hash, Layout(result, positions), blockOffset, key) <==>
              (i < |groups| ==>
                groups[i] != [] && Matches(hash, key, result[positions[i]..Limit(positions, |result|, i)]))
  {
    hide Matches, DecodeFixed32, Layout, TrailerOf, FilterOf, Index;
    LayoutReads(result, positions);
    IndexIs(blockOffset);
    var i := blockOffset / BASE;
    if i < |groups| {
      PositionsFit(hash, k, result, positions, groups);
      OffsetReads(result, positions, i);
      OffsetReads(result, positions, i + 1);
      assert FilterAt(hash, k, result, positions, groups[i], i);
      var limit := Limit(positions, |result|, i);
      LayoutStarts(result, positions, positions[i], limit);
      EmptyMatchesNothing(hash, key);
    }
  }

  lemma PositionsFit(hash: Bytes -> Word, k: nat, result: Bytes, positions: seq<nat>, groups: seq<seq<Bytes>>)
    requires Filters(hash, k, result, positions, groups)
    ensures forall j :: 0 <= j < |positions| ==> positions[j] <= |result|
  {
    hide FilterOf;
    forall j | 0 <= j < |positions| ensures positions[j] <= |result| {
      assert FilterAt(hash, k, result, positions, groups[j], j);
    }
  }

  lemma LayoutStarts(result: Bytes, positions: seq<nat>, lo: nat, hi: nat)
    requires lo <= hi <= |result|
    ensures |Layout(result, positions)| >= |result| && Layout(result, positions)[lo..hi] == result[lo..hi]
  {
    hide Words;
  }

  lemma EmptyMatchesNothing(hash: Bytes -> Word, key: Bytes)
    ensures !Matches(hash, key, [])
  {
  }

  /** No false negatives: a key added for a block is matched at that block's offset. */
  lemma NoFalseNegatives(hash: Bytes -> Word, k: nat, result: Bytes, positions: seq<nat>, groups: seq<seq<Bytes>>,
                         a: (nat, Bytes))
    requires 1 <= k <= 30 && Filters(hash, k, result, positions, groups) && |result| < WORD
    requires Covers(groups, a)
    ensures MayHold(hash, Layout(result, positions), a.0, a.1)
  {
    hide Matches, MayHold, Layout, FilterOf;
    var i := a.0 / BASE;
    AnswerIs(hash, k, result, positions, groups, a.0, a.1);
    assert FilterAt(hash, k, result, positions, groups[i], i);
    MatchesIff(hash, k, groups[i], result[positions[i]..Limit(positions, |result|, i)], a.1);
  }
}
