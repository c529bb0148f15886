/** The filter block of a table, filled as the table is built (table/table_builder.cc) and asked when
    a key is looked up (table/table.cc). */
module TableFilters {
  import opened Coding
  import opened Keys
  import opened TwoLevel
  import opened Ranks
  import opened Blooms
  import opened FilterBlocks
  import Tables

  ghost predicate Ascending(offsets: seq<nat>) {
    forall i, j :: 0 <= i < j < |offsets| ==> offsets[i] <= offsets[j]
  }

  /** The keys of the first blocks are added under their blocks' offsets. */
  ghost predicate AllAdded(keys: seq<seq<Bytes>>, offsets: seq<nat>, added: set<(nat, Bytes)>, n: nat)
    requires n <= |keys| == |offsets|
  {
    forall i, u :: 0 <= i < n && u in keys[i] ==> (offsets[i], u) in added
  }

  /** Every user key is matched at the offset of its block. */
  ghost predicate AllMatched(hash: Bytes -> Word, contents: Bytes, keys: seq<seq<Bytes>>, offsets: seq<nat>)
    requires |keys| == |offsets|
  {
    forall i, u :: 0 <= i < |keys| && u in keys[i] ==> MayHold(hash, contents, offsets[i], u)
  }

  /** StartBlock at the offset of each block, AddKey with each of its user keys (the policy strips the
      trailers), and Finish.  The filter block is below 4GB, as its offsets have 32 bits. */
  method BuildFilter(policy: BloomFilterPolicy, keys: seq<seq<Bytes>>, offsets: seq<nat>) returns (contents: Bytes)
    requires 1 <= policy.k <= 30 && |keys| == |offsets| && Ascending(offsets)
    ensures |contents| < WORD ==> AllMatched(policy.hash, contents, keys, offsets)
  {
    hide Layout, Covers, Filters, MayHold;
    var builder := new FilterBlockBuilder(policy);
    builder.StartBlock(0);
    for i := 0 to |keys|
      invariant builder.Valid() && builder.policy == policy && fresh(builder)
      invariant i < |offsets| ==> builder.blockOffset <= offsets[i]
      invariant AllAdded(keys, offsets, builder.added, i)
    {
      builder.StartBlock(offsets[i]);
      AddBlock(builder, keys[i]);
    }
    contents := builder.Finish();
    if |contents| < WORD {
      FilterCovers(builder, keys, offsets, contents);
    }
  }

  method AddBlock(builder: FilterBlockBuilder, keys: seq<Bytes>)
    requires builder.Valid()
    modifies builder
    ensures builder.Valid() && builder.blockOffset == old(builder.blockOffset) && old(builder.added) <= builder.added
    ensures forall u :: u in keys ==> (builder.blockOffset, u) in builder.added
  {
    for j := 0 to |keys|
      invariant builder.Valid() && builder.blockOffset == old(builder.blockOffset) &&
                old(builder.added) <= builder.added
      invariant forall u :: u in keys[..j] ==> (builder.blockOffset, u) in builder.added
    {
      builder.AddKey(keys[j]);
      assert keys[..j + 1] == keys[..j] + [keys[j]];
    }
    assert keys[..|keys|] == keys;
  }

  lemma FilterCovers(builder: FilterBlockBuilder, keys: seq<seq<Bytes>>, offsets: seq<nat>, contents: Bytes)
    requires 1 <= builder.policy.k <= 30 && |keys| == |offsets|
    requires AllAdded(keys, offsets, builder.added, |keys|)
    requires contents == Layout(builder.result, builder.positions) && |contents| < WORD
    requires Filters(builder.policy.hash, builder.policy.k, builder.result, builder.positions, builder.groups)
    requires forall a :: a in builder.added ==> Covers(builder.groups, a)
    ensures AllMatched(builder.policy.hash, contents, keys, offsets)
  {
    hide Filters, Covers, MayHold;
    forall i, u | 0 <= i < |keys| && u in keys[i] ensures MayHold(builder.policy.hash, contents, offsets[i], u) {
      FilterBlocks.NoFalseNegatives(builder.policy.hash, builder.policy.k, builder.result, builder.positions,
        builder.groups, (offsets[i], u));
    }
  }

  /** The filter as a question about a block's number and a user key of the model. */
  ghost predicate MayHoldRank(hash: Bytes -> Word, contents: Bytes, offsets: seq<nat>, i: nat, user: UserKey) {
    i < |offsets| ==> forall u :: KeyRank(u) == user ==> MayHold(hash, contents, offsets[i], u)
  }

  ghost function FilterOn(hash: Bytes -> Word, contents: Bytes, offsets: seq<nat>): (nat, UserKey) -> bool {
    (i: nat, user: UserKey) => MayHoldRank(hash, contents, offsets, i, user)
  }

  /** A block holds only entries of the listed user keys. */
  ghost predicate KeyedBy(run: Run, keys: seq<Bytes>) {
    forall e :: e in run ==> exists u :: u in keys && KeyRank(u) == e.ik.user
  }

  lemma FilterNeverDenies(hash: Bytes -> Word, contents: Bytes, keys: seq<seq<Bytes>>, offsets: seq<nat>,
                          blocks: seq<Block>)
    requires |keys| == |offsets| == |blocks| && AllMatched(hash, contents, keys, offsets)
    requires forall i :: 0 <= i < |blocks| ==> KeyedBy(blocks[i].run, keys[i])
    ensures Tables.NoFalseNegatives(blocks, FilterOn(hash, contents, offsets))
  {
    hide MayHold;
    var mayMatch := FilterOn(hash, contents, offsets);
    forall i, e | 0 <= i < |blocks| && e in blocks[i].run ensures mayMatch(i, e.ik.user) {
      assert KeyedBy(blocks[i].run, keys[i]);
      forall u | KeyRank(u) == e.ik.user ensures MayHold(hash, contents, offsets[i], u) {
        var w :| w in keys[i] && KeyRank(w) == e.ik.user;
        RankEmbeds(u, w);
      }
    }
  }
}
