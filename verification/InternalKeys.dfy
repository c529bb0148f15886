/** Encoded internal keys, and blocks of them as the database model sees them (db/dbformat.h, db/dbformat.cc). */
module InternalKeys {
  import opened Coding
  import opened Keys
  import opened Separators
  import opened Ranks
  import opened Blocks

  // ------------------------------------------------------------------ encoded internal keys

  function Encoded(k: Key): Bytes
    requires k.trailer < LONG
  {
    k.user + Fixed64(k.trailer)
  }

  function Decoded(b: Bytes): (k: Key)
    ensures k.trailer < LONG && |k.user| <= |b|
  {
    if |b| < 8 then Key([], 0) else Key(b[..|b| - 8], DecodeFixed64(b[|b| - 8..]))
  }

  lemma DecodedEncoded(k: Key)
    requires WellFormed(k)
    ensures Decoded(Encoded(k)) == k && IsKey(Encoded(k))
  {
    hide Fixed64, DecodeFixed64;
    var b := Encoded(k);
    assert b[..|b| - 8] == k.user && b[|b| - 8..] == Fixed64(k.trailer) + [];
    Fixed64RoundTrip(k.trailer, []);
  }

  predicate IsKey(b: Bytes) {
    |b| >= 8 && WellFormed(Decoded(b))
  }

  /** InternalKeyComparator::Compare. */
  function InternalLess(): (Bytes, Bytes) -> bool {
    (a: Bytes, b: Bytes) => KeyBefore(Decoded(a), Decoded(b))
  }

  lemma InternalLessIsTransitive()
    ensures Transitive(InternalLess())
  {
    forall a, b, c | InternalLess()(a, b) && InternalLess()(b, c) ensures InternalLess()(a, c) {
      var x, y, z := Decoded(a), Decoded(b), Decoded(c);
      if Before(x.user, y.user) && Before(y.user, z.user) {
        BeforeIsTransitive(x.user, y.user, z.user);
      }
    }
  }

  function Text(value: Bytes): string {
    seq(|value|, i requires 0 <= i < |value| => value[i] as char)
  }

  function EntryOf(p: Pair): Entry {
    Entry(Unpacked(Decoded(p.key)), Text(p.value))
  }

  /** The entries of a block as the database model sees them. */
  function RunOf(items: seq<Item>): (r: Run)
    ensures |r| == |items|
  {
    seq(|items|, i requires 0 <= i < |items| => EntryOf(items[i].pair))
  }

  ghost predicate Keyed(items: seq<Item>) {
    forall i :: 0 <= i < |items| ==> IsKey(items[i].pair.key)
  }

  /** Order in a block is order in the model. */
  lemma SortedRun(items: seq<Item>)
    requires Keyed(items)
    ensures Blocks.Ascending(items, InternalLess()) <==> Sorted(RunOf(items))
  {
    hide Decoded, Unpacked, KeyBefore, Less, WellFormed;
    forall i, j | 0 <= i < j < |items|
      ensures InternalLess()(items[i].pair.key, items[j].pair.key) <==> Less(RunOf(items)[i].ik, RunOf(items)[j].ik)
    {
      UnpackedEmbeds(Decoded(items[i].pair.key), Decoded(items[j].pair.key));
    }
  }
}
