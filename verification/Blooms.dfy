/** The Bloom filter policy (util/bloom.cc).  The hash function is any function to 32 bits. */
module Blooms {
  import opened Coding

  // ------------------------------------------------------------------ bits of bytes

  /** `b & (1 << i)` is not zero. */
  predicate HasBit(b: nat, i: nat) {
    if i == 0 then b % 2 == 1 else HasBit(b / 2, i - 1)
  }

  /** `b | (1 << i)`. */
  function WithBit(b: nat, i: nat): nat {
    if i == 0 then b / 2 * 2 + 1 else WithBit(b / 2, i - 1) * 2 + b % 2
  }

  lemma {:induction false} WithBitHas(b: nat, i: nat, j: nat)
    ensures HasBit(WithBit(b, i), j) <==> i == j || HasBit(b, j)
  {
    if i > 0 && j > 0 { WithBitHas(b / 2, i - 1, j - 1); }
  }

  function Power(n: nat): (p: nat)
    ensures p > 0
  {
    if n == 0 then 1 else 2 * Power(n - 1)
  }

  lemma {:induction false} WithBitFits(b: nat, i: nat, n: nat)
    requires i < n && b < Power(n)
    ensures WithBit(b, i) < Power(n)
  {
    if i > 0 { WithBitFits(b / 2, i - 1, n - 1); }
  }

  lemma ByteWithBit(b: Byte, i: nat)
    requires i < 8
    ensures WithBit(b, i) < 256
  {
    assert Power(8) == 2 * Power(7) == 4 * Power(6) == 8 * Power(5) == 16 * Power(4) == 32 * Power(3) == 64 * Power(2);
    WithBitFits(b, i, 8);
  }

  lemma {:induction false} NoBitOfZero(i: nat)
    ensures !HasBit(0, i)
  {
    if i > 0 { NoBitOfZero(i - 1); }
  }

  /** Bytes with the same bits are the same. */
  lemma {:induction false} SameBits(a: nat, b: nat, n: nat)
    requires a < Power(n) && b < Power(n) && forall i :: 0 <= i < n ==> (HasBit(a, i) <==> HasBit(b, i))
    ensures a == b
  {
    if n > 0 {
      forall i | 0 <= i < n - 1 ensures HasBit(a / 2, i) <==> HasBit(b / 2, i) {
        assert HasBit(a, i + 1) <==> HasBit(b, i + 1);
      }
      SameBits(a / 2, b / 2, n - 1);
      assert HasBit(a, 0) <==> HasBit(b, 0);
    }
  }

  /** Bit `p` of a byte array. */
  predicate Bit(bytes: Bytes, p: nat)
    requires p < 8 * |bytes|
  {
    HasBit(bytes[p / 8], p % 8)
  }

  function WithBitAt(bytes: Bytes, p: nat): (r: Bytes)
    requires p < 8 * |bytes|
    ensures |r| == |bytes|
  {
    ByteWithBit(bytes[p / 8], p % 8);
    bytes[p / 8 := WithBit(bytes[p / 8], p % 8)]
  }

  lemma WithBitAtHas(bytes: Bytes, p: nat)
    requires p < 8 * |bytes|
    ensures forall q :: 0 <= q < 8 * |bytes| ==> (Bit(WithBitAt(bytes, p), q) <==> q == p || Bit(bytes, q))
  {
    forall q | 0 <= q < 8 * |bytes| ensures Bit(WithBitAt(bytes, p), q) <==> q == p || Bit(bytes, q) {
      WithBitHas(bytes[p / 8], p % 8, q % 8);
      if p / 8 == q / 8 && p % 8 == q % 8 { assert p == q; }
    }
  }

  // ------------------------------------------------------------------ probes

  /** Rotate right by 17 bits. */
  function Rotated(h: Word): Word {
    h / 131072 + h % 131072 * 32768
  }

  /** Double hashing in 32 bits: the hash value of probe `j`. */
  function Probe(h: Word, j: nat): Word {
    if j == 0 then h else (Probe(h, j - 1) + Rotated(h)) % WORD
  }

  /** Probe `j` is as many steps of one rotated hash beyond the hash itself. */
  lemma {:induction false} DoubleHashing(h: Word, j: nat)
    ensures Probe(h, j) == (h + j * (h / 0x2_0000 + h % 0x2_0000 * 0x8000)) % WORD
  {
    StepsOf(h, Rotated(h), j);
  }

  lemma {:induction false} StepsOf(h: Word, delta: nat, j: nat)
    requires delta == Rotated(h)
    ensures Probe(h, j) == (h + j * delta) % WORD
  {
    hide Rotated;
    if j > 0 {
      StepsOf(h, delta, j - 1);
      var prev := (j - 1) * delta;
      OneMore(j, delta);
      NextStep(h, prev, delta, Probe(h, j - 1));
    } else {
      assert 0 * delta == 0;
    }
  }

  lemma OneMore(j: nat, delta: nat)
    requires j > 0
    ensures (j - 1) * delta + delta == j * delta
  {
  }

  lemma NextStep(h: Word, prev: nat, delta: nat, p: Word)
    requires p == (h + prev) % WORD
    ensures (p + delta) % WORD == (h + (prev + delta)) % WORD
  {
  }

  /** The bit that probe `j` of a key hits. */
  function Position(hash: Bytes -> Word, key: Bytes, j: nat, bits: nat): (p: nat)
    requires bits > 0
    ensures p < bits
  {
    Probe(hash(key), j) % bits
  }

  lemma PositionIs(hash: Bytes -> Word, key: Bytes, j: nat, bits: nat)
    requires bits > 0
    ensures Position(hash, key, j, bits) == Probe(hash(key), j) % bits
  {
  }

  /** Some key's first `k` probes hit bit `p` of `bits`. */
  ghost predicate Probed(hash: Bytes -> Word, k: nat, keys: seq<Bytes>, bits: nat, p: nat)
    requires bits > 0
  {
    exists i, j :: 0 <= i < |keys| && 0 <= j < k && Position(hash, keys[i], j, bits) == p
  }

  /** The bits of a filter: all but its last byte. */
  function Bits(filter: Bytes): (bits: nat)
    requires |filter| >= 2
    ensures 0 < bits < 8 * |filter|
  {
    (|filter| - 1) * 8
  }

  /** The filter of a list of keys: exactly the probed bits are set, and the number of probes follows. */
  ghost predicate FilterOf(hash: Bytes -> Word, k: nat, keys: seq<Bytes>, filter: Bytes) {
    && |filter| > 8 && filter[|filter| - 1] == k
    && forall p :: 0 <= p < Bits(filter) ==> (Bit(filter, p) <==> Probed(hash, k, keys, Bits(filter), p))
  }

  /** What KeyMayMatch answers. */
  predicate Matches(hash: Bytes -> Word, key: Bytes, filter: Bytes) {
    && |filter| >= 2
    && var k: int := filter[|filter| - 1];
       // An encoding this version does not know.
       || k > 30
       || forall j :: 0 <= j < k ==> Bit(filter, Position(hash, key, j, Bits(filter)))
  }

  /** A key is matched exactly when each of its probes is also a probe of an added key: in
      particular every added key is matched, and an empty list matches nothing. */
  lemma MatchesIff(hash: Bytes -> Word, k: nat, keys: seq<Bytes>, filter: Bytes, key: Bytes)
    requires 1 <= k <= 30 && FilterOf(hash, k, keys, filter)
    ensures Matches(hash, key, filter) <==>
            forall j :: 0 <= j < k ==>
              Probed(hash, k, keys, Bits(filter), Position(hash, key, j, Bits(filter)))
    ensures key in keys ==> Matches(hash, key, filter)
    ensures keys == [] ==> !Matches(hash, key, filter)
  {
    hide Bit, Probed, Position;
    var bits := Bits(filter);
    forall j | 0 <= j < k
      ensures Bit(filter, Position(hash, key, j, bits)) <==> Probed(hash, k, keys, bits, Position(hash, key, j, bits))
    {
      assert Bit(filter, Position(hash, key, j, bits)) <==> Probed(hash, k, keys, bits, Position(hash, key, j, bits));
    }
    if key in keys {
      OwnProbes(hash, k, keys, bits, key);
    }
    NoProbes(hash, k, bits, Position(hash, key, 0, bits));
  }

  /** What is no filter: too short matches nothing; a number of probes above 30 is kept for other encodings and matches
      every key. */
  lemma OtherContents(hash: Bytes -> Word, key: Bytes, filter: Bytes)
    ensures |filter| < 2 ==> !Matches(hash, key, filter)
    ensures |filter| >= 2 && filter[|filter| - 1] > 30 ==> Matches(hash, key, filter)
  {
    hide Position, Bit;
  }

  lemma OwnProbes(hash: Bytes -> Word, k: nat, keys: seq<Bytes>, bits: nat, key: Bytes)
    requires bits > 0 && key in keys
    ensures forall j :: 0 <= j < k ==> Probed(hash, k, keys, bits, Position(hash, key, j, bits))
  {
    var i :| 0 <= i < |keys| && keys[i] == key;
  }

  lemma NoProbes(hash: Bytes -> Word, k: nat, bits: nat, p: nat)
    requires bits > 0
    ensures !Probed(hash, k, [], bits, p)
  {
  }

  class BloomFilterPolicy {
    const bitsPerKey: nat
    const k: nat
    const hash: Bytes -> Word

    /** `probes` is `bitsPerKey` times 0.69, rounded down. */
    constructor (bitsPerKey: nat, probes: nat, hash: Bytes -> Word)
      ensures this.bitsPerKey == bitsPerKey && this.hash == hash && 1 <= k <= 30
      ensures 1 <= probes <= 30 ==> k == probes
      ensures probes > 30 ==> k == 30
    {
      this.bitsPerKey := bitsPerKey;
      this.hash := hash;
      k := if probes < 1 then 1 else if probes > 30 then 30 else probes;
    }

    /** Append the filter of the keys to `dst`. */
    method CreateFilter(keys: seq<Bytes>, dst: Bytes) returns (result: Bytes)
      requires 1 <= k <= 30
      ensures |dst| < |result| && result[..|dst|] == dst && FilterOf(hash, k, keys, result[|dst|..])
      ensures var bytes := (|keys| * bitsPerKey + 7) / 8; |result| == |dst| + 1 + if bytes < 8 then 8 else bytes
    {
      var bits := |keys| * bitsPerKey;
      if bits < 64 {
        bits := 64;
      }
      var bytes := (bits + 7) / 8;
      bits := bytes * 8;
      var filter: Bytes := seq(bytes, _ => 0);
      NothingProbed(hash, k, bits);
      for i := 0 to |keys|
        invariant |filter| == bytes
        invariant forall p :: 0 <= p < bits ==> (Bit(filter, p) <==> Probed(hash, k, keys[..i], bits, p))
      {
        filter := AddKey(keys[..i], keys[i], filter);
        assert keys[..i + 1] == keys[..i] + [keys[i]];
      }
      assert keys[..|keys|] == keys;
      result := dst + filter + [k];
      assert result[..|dst|] == dst && result[|dst|..] == filter + [k];
      FilterFormed(hash, k, keys, filter);
    }

    /** The inner loop: set the bits of one more key. */
    method AddKey(ghost keys: seq<Bytes>, key: Bytes, filter: Bytes) returns (result: Bytes)
      requires filter != []
      requires forall p :: 0 <= p < |filter| * 8 ==> (Bit(filter, p) <==> Probed(hash, k, keys, |filter| * 8, p))
      ensures |result| == |filter|
      ensures forall p :: 0 <= p < |filter| * 8 ==> (Bit(result, p) <==> Probed(hash, k, keys + [key], |filter| * 8, p))
    {
      hide Bit;
      var bits := |filter| * 8;
      var h := hash(key);
      var delta := Rotated(h);
      result := filter;
      for j := 0 to k
        invariant |result| == |filter| && h == Probe(hash(key), j)
        invariant forall p :: 0 <= p < bits ==> (Bit(result, p) <==> Bit(filter, p) || Hit(hash, key, j, bits, p))
      {
        var bitpos := h % bits;
        WithBitAtHas(result, bitpos);
        HitStep(hash, key, j, bits);
        result := WithBitAt(result, bitpos);
        h := (h + delta) % WORD;
      }
      forall p | 0 <= p < bits ensures Bit(result, p) <==> Probed(hash, k, keys + [key], bits, p) {
        ProbedStep(hash, k, keys, key, bits, p);
      }
    }

    method KeyMayMatch(key: Bytes, filter: Bytes) returns (may: bool)
      ensures may == Matches(hash, key, filter)
    {
      hide Bit, Position;
      var len := |filter|;
      if len < 2 {
        return false;
      }
      var bits := Bits(filter);
      var probes: int := filter[len - 1];
      if probes > 30 {
        return true;
      }
      var h := hash(key);
      var delta := Rotated(h);
      for j := 0 to probes
        invariant h == Probe(hash(key), j)
        invariant forall i :: 0 <= i < j ==> Bit(filter, Position(hash, key, i, bits))
      {
        var bitpos := h % bits;
        PositionIs(hash, key, j, bits);
        if !Bit(filter, bitpos) {
          return false;
        }
        h := (h + delta) % WORD;
      }
      return true;
    }
  }

  /** One of the first `n` probes of the key hits bit `p`. */
  ghost predicate Hit(hash: Bytes -> Word, key: Bytes, n: nat, bits: nat, p: nat)
    requires bits > 0
  {
    exists j :: 0 <= j < n && Position(hash, key, j, bits) == p
  }

  lemma HitStep(hash: Bytes -> Word, key: Bytes, n: nat, bits: nat)
    requires bits > 0
    ensures forall p: nat :: Hit(hash, key, n + 1, bits, p) <==>
            Hit(hash, key, n, bits, p) || p == Position(hash, key, n, bits)
  {
  }

  lemma ProbedStep(hash: Bytes -> Word, k: nat, keys: seq<Bytes>, key: Bytes, bits: nat, p: nat)
    requires bits > 0
    ensures Probed(hash, k, keys + [key], bits, p) <==> Probed(hash, k, keys, bits, p) || Hit(hash, key, k, bits, p)
  {
    if Probed(hash, k, keys, bits, p) {
      var i, j :| 0 <= i < |keys| && 0 <= j < k && Position(hash, keys[i], j, bits) == p;
      assert (keys + [key])[i] == keys[i];
    }
    if Hit(hash, key, k, bits, p) {
      assert (keys + [key])[|keys|] == key;
    }
  }

  lemma NothingProbed(hash: Bytes -> Word, k: nat, bits: nat)
    requires bits > 0 && bits % 8 == 0
    ensures var zeros := seq(bits / 8, _ => 0); forall p :: 0 <= p < bits ==>
            !Bit(zeros, p) && !Probed(hash, k, [], bits, p)
  {
    var zeros := seq(bits / 8, _ => 0);
    forall p | 0 <= p < bits ensures !Bit(zeros, p) {
      NoBitOfZero(p % 8);
    }
  }

  lemma FilterFormed(hash: Bytes -> Word, k: nat, keys: seq<Bytes>, filter: Bytes)
    requires k < 256 && |filter| >= 8
    requires forall p :: 0 <= p < |filter| * 8 ==> (Bit(filter, p) <==> Probed(hash, k, keys, |filter| * 8, p))
    ensures FilterOf(hash, k, keys, filter + [k])
  {
    var r: Bytes := filter + [k];
    forall p | 0 <= p < Bits(r) ensures Bit(r, p) <==> Probed(hash, k, keys, Bits(r), p) {
      assert Bit(r, p) == Bit(filter, p);
    }
  }
}
