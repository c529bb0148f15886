/** User keys as byte strings: an embedding of their order into the numbers the database model
    compares (util/comparator.cc, db/dbformat.cc). */
module Ranks {
  import opened Coding
  import opened Separators
  import Keys

  /** A byte string read as a fraction in base 257: the end of the string is digit zero. */
  function KeyRank(b: Bytes): (r: real)
    ensures 0.0 <= r < 1.0
  {
    if b == [] then 0.0 else (b[0] as real + 1.0 + KeyRank(b[1..])) / 257.0
  }

  /** The embedding keeps the order of byte strings in both directions, and is injective. */
  lemma {:induction false} RankEmbeds(a: Bytes, b: Bytes)
    ensures Before(a, b) <==> KeyRank(a) < KeyRank(b)
    ensures a == b <==> KeyRank(a) == KeyRank(b)
  {
    if a != [] && b != [] {
      if a[0] == b[0] {
        RankEmbeds(a[1..], b[1..]);
        BeforeTail(a, b);
        assert a == [a[0]] + a[1..] && b == [b[0]] + b[1..];
      } else {
        FirstByteDecides(a, b);
      }
    }
  }

  lemma FirstByteDecides(a: Bytes, b: Bytes)
    requires a != [] && b != [] && a[0] != b[0]
    ensures KeyRank(a) < KeyRank(b) <==> a[0] < b[0]
    ensures KeyRank(a) != KeyRank(b)
  {
    var x: int, y: int := a[0], b[0];
    if x < y {
      assert x as real + 1.0 + KeyRank(a[1..]) < y as real + 1.0;
    } else {
      assert y as real + 1.0 + KeyRank(b[1..]) < x as real + 1.0;
    }
  }

  lemma BeforeTail(a: Bytes, b: Bytes)
    requires a != [] && b != [] && a[0] == b[0]
    ensures Before(a, b) <==> Before(a[1..], b[1..])
  {
    assert Common(a, b) == 1 + Common(a[1..], b[1..]);
  }

  /** An internal key as the model sees it: the packed trailer taken apart. */
  function Unpacked(k: Key): (ik: Keys.IKey) {
    Keys.IKey(KeyRank(k.user), k.trailer / 256, if k.trailer % 256 == 1 then Keys.Value else Keys.Deletion)
  }

  /** A trailer packs a sequence number and one of the two types. */
  predicate WellFormed(k: Key) {
    k.trailer <= MAX_TRAILER && k.trailer % 256 <= 1
  }

  lemma UnpackedTrailer(k: Key)
    requires WellFormed(k)
    ensures Keys.Packed(Unpacked(k)) == k.trailer && Unpacked(k).seqno <= Keys.MAX_SEQUENCE
  {
  }

  /** The internal key order of the model is that of encoded internal keys. */
  lemma UnpackedEmbeds(a: Key, b: Key)
    requires WellFormed(a) && WellFormed(b)
    ensures KeyBefore(a, b) <==> Keys.Less(Unpacked(a), Unpacked(b))
    ensures a == b <==> Unpacked(a) == Unpacked(b)
  {
    RankEmbeds(a.user, b.user);
    UnpackedTrailer(a);
    UnpackedTrailer(b);
    Keys.LessComparesTrailers(Unpacked(a), Unpacked(b));
  }
}
