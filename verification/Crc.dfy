/** CRC32C (section 12.1 of RFC 3720): the aligned, four-lane, 16-byte-stride computation of
    util/crc32c.cc against the bit-serial definition, and the masking of util/crc32c.h.

    The lookup tables are defined from the polynomial.  */
module Crc {
  import opened Coding

  type Octet = bv8

  // The Castagnoli polynomial, bit-reflected.
  const POLY: bv32 := 0x82f63b78
  // All bits are flipped before and after.
  const ALL_ONES: bv32 := 0xffff_ffff
  const MASK_DELTA: nat := 0xa282_ead8

  // Named operations, so that proofs can treat them as symbols.

  function Xor(a: bv32, b: bv32): bv32 {
    a ^ b
  }

  function Wide(b: Octet): bv32 {
    b as bv32
  }

  function Up(w: bv32): bv32 {
    w << 8
  }

  /** The top byte is zero. */
  predicate Three(w: bv32) {
    w & 0xff00_0000 == 0
  }

  // ------------------------------------------------------------------ the definition

  function Bit(l: bv32): bv32 {
    if l & 1 == 1 then (l >> 1) ^ POLY else l >> 1
  }

  /** The register after eight more zero bits. */
  function Zero1(l: bv32): bv32 {
    Bit(Bit(Bit(Bit(Bit(Bit(Bit(Bit(l))))))))
  }

  function Zero4(l: bv32): bv32 {
    Zero1(Zero1(Zero1(Zero1(l))))
  }

  function Zero16(l: bv32): bv32 {
    Zero4(Zero4(Zero4(Zero4(l))))
  }

  /** The register after `data`, one byte at a time. */
  function Register(l: bv32, data: seq<Octet>): bv32 {
    if data == [] then l
    else Zero1(Xor(Register(l, data[..|data| - 1]), Wide(data[|data| - 1])))
  }

  /** The CRC32C of a string followed by `data`, given the string's CRC32C. */
  function Extended(crc: bv32, data: seq<Octet>): bv32 {
    Xor(Register(Xor(crc, ALL_ONES), data), ALL_ONES)
  }

  function Value(data: seq<Octet>): bv32 {
    Extended(0, data)
  }

  lemma {:induction false} RegisterComposes(l: bv32, a: seq<Octet>, b: seq<Octet>)
    ensures Register(l, a + b) == Register(Register(l, a), b)
  {
    if b == [] {
      assert a + b == a;
    } else {
      hide Xor, Wide, Zero1;
      var n := |b| - 1;
      assert (a + b)[..|a + b| - 1] == a + b[..n];
      RegisterComposes(l, a, b[..n]);
    }
  }

  /** Extending by `a` and then by `b` is extending by `a + b`. */
  lemma ExtendComposes(crc: bv32, a: seq<Octet>, b: seq<Octet>)
    ensures Extended(Extended(crc, a), b) == Extended(crc, a + b)
  {
    hide Xor, Register;
    RegisterComposes(Xor(crc, ALL_ONES), a, b);
    XorTwice(Register(Xor(crc, ALL_ONES), a), ALL_ONES);
  }

  lemma XorTwice(x: bv32, y: bv32)
    ensures Xor(Xor(x, y), y) == x
  {
  }

  // ------------------------------------------------------------------ masking

  /** A register as an unsigned number. */
  function Number(l: bv32): (n: nat)
    ensures n < WORD
  {
    l as nat
  }

  /** A rotation of the 32 bits by 15 places, and then a sum. */
  function Mask(crc: nat): (m: nat)
    requires crc < WORD
    ensures m < WORD
  {
    (crc / 32768 + crc % 32768 * 131072 + MASK_DELTA) % WORD
  }

  function Unmask(masked: nat): (crc: nat)
    requires masked < WORD
    ensures crc < WORD
  {
    var rot := (masked + WORD - MASK_DELTA) % WORD;
    rot / 131072 + rot % 131072 * 32768
  }

  lemma UnmaskMask(crc: nat)
    requires crc < WORD
    ensures Unmask(Mask(crc)) == crc
  {
    var rot := crc / 32768 + crc % 32768 * 131072;
    assert rot < WORD;
    assert (Mask(crc) + WORD - MASK_DELTA) % WORD == rot;
    assert rot / 131072 == crc % 32768 && rot % 131072 == crc / 32768;
  }

  // ------------------------------------------------------------------ the register is linear


  lemma ShiftXor(a: bv32, b: bv32)
    ensures (a ^ b) >> 1 == (a >> 1) ^ (b >> 1)
  {
  }

  lemma LowBitXor(a: bv32, b: bv32)
    ensures (a ^ b) & 1 == (a & 1) ^ (b & 1)
    ensures (a & 1 == 0 || a & 1 == 1) && (b & 1 == 0 || b & 1 == 1)
  {
  }

  lemma XorConstant(x: bv32, y: bv32, c: bv32)
    ensures (x ^ c) ^ y == (x ^ y) ^ c
    ensures x ^ (y ^ c) == (x ^ y) ^ c
    ensures (x ^ c) ^ (y ^ c) == x ^ y
  {
  }

  lemma BitOfXor(a: bv32, b: bv32)
    ensures Bit(a ^ b) == Bit(a) ^ Bit(b)
  {
    ShiftXor(a, b);
    LowBitXor(a, b);
    XorConstant(a >> 1, b >> 1, POLY);
  }

  lemma BitIsLinear(a: bv32, b: bv32)
    ensures Bit(Xor(a, b)) == Xor(Bit(a), Bit(b))
  {
    hide Bit;
    BitOfXor(a, b);
  }

  lemma Bit4IsLinear(a: bv32, b: bv32)
    ensures Bit(Bit(Bit(Bit(Xor(a, b))))) == Xor(Bit(Bit(Bit(Bit(a)))), Bit(Bit(Bit(Bit(b)))))
  {
    hide Bit, Xor;
    BitIsLinear(a, b);
    BitIsLinear(Bit(a), Bit(b));
    BitIsLinear(Bit(Bit(a)), Bit(Bit(b)));
    BitIsLinear(Bit(Bit(Bit(a))), Bit(Bit(Bit(b))));
  }

  lemma Zero1IsLinear(a: bv32, b: bv32)
    ensures Zero1(Xor(a, b)) == Xor(Zero1(a), Zero1(b))
  {
    hide Bit, Xor;
    Bit4IsLinear(a, b);
    Bit4IsLinear(Bit(Bit(Bit(Bit(a)))), Bit(Bit(Bit(Bit(b)))));
  }

  lemma Zero4IsLinear(a: bv32, b: bv32)
    ensures Zero4(Xor(a, b)) == Xor(Zero4(a), Zero4(b))
  {
    hide Zero1, Xor;
    Zero1IsLinear(a, b);
    Zero1IsLinear(Zero1(a), Zero1(b));
    Zero1IsLinear(Zero1(Zero1(a)), Zero1(Zero1(b)));
    Zero1IsLinear(Zero1(Zero1(Zero1(a))), Zero1(Zero1(Zero1(b))));
  }

  lemma Zero16IsLinear(a: bv32, b: bv32)
    ensures Zero16(Xor(a, b)) == Xor(Zero16(a), Zero16(b))
  {
    hide Zero4, Xor;
    Zero4IsLinear(a, b);
    Zero4IsLinear(Zero4(a), Zero4(b));
    Zero4IsLinear(Zero4(Zero4(a)), Zero4(Zero4(b)));
    Zero4IsLinear(Zero4(Zero4(Zero4(a))), Zero4(Zero4(Zero4(b))));
  }

  lemma XorLaws(a: bv32, b: bv32, c: bv32)
    ensures Xor(a, b) == Xor(b, a)
    ensures Xor(Xor(a, b), c) == Xor(a, Xor(b, c))
  {
  }

  // ------------------------------------------------------------------ table lookups

  /** kByteExtensionTable. */
  function ByteTable(c: bv32): bv32 {
    Zero1(c)
  }

  /** kStrideExtensionTable0 to kStrideExtensionTable3: byte `c` of the register, 16 bytes on. */
  function StrideTable(k: nat, c: bv32): bv32
    requires k < 4
  {
    Zero16(if k == 0 then c << 24 else if k == 1 then c << 16 else if k == 2 then c << 8 else c)
  }

  lemma ShiftOut(x: bv32)
    requires x & 0xff == 0
    ensures Zero1(x) == x >> 8
  {
    assert Bit(x) == x >> 1;
    assert Bit(x >> 1) == x >> 2;
    assert Bit(x >> 2) == x >> 3;
    assert Bit(x >> 3) == x >> 4;
    assert Bit(x >> 4) == x >> 5;
    assert Bit(x >> 5) == x >> 6;
    assert Bit(x >> 6) == x >> 7;
    assert Bit(x >> 7) == x >> 8;
  }

  function Low(l: bv32): bv32 { l & 0xff }

  function High(l: bv32): bv32 { l & 0xffff_ff00 }

  lemma LowAndHigh(l: bv32)
    ensures Xor(Low(l), High(l)) == l
    ensures Zero1(High(l)) == l >> 8
  {
    hide Xor, Zero1, Low;
    LowXorHigh(l);
    ShiftOut(High(l));
  }

  lemma LowXorHigh(l: bv32)
    ensures Xor(Low(l), High(l)) == l
    ensures High(l) & 0xff == 0 && High(l) >> 8 == l >> 8
  {
  }

  /** One lookup advances the register by a byte. */
  lemma ByteLookup(l: bv32)
    ensures Xor(ByteTable(Low(l)), l >> 8) == Zero1(l)
  {
    hide Zero1, Xor, Low, High;
    LowAndHigh(l);
    Zero1IsLinear(Low(l), High(l));
  }

  lemma FourParts(l: bv32)
    ensures Xor(Xor(Xor(l & 0xff, ((l >> 8) & 0xff) << 8), ((l >> 16) & 0xff) << 16), (l >> 24) << 24) == l
  {
  }

  /** Four lookups advance a lane by sixteen bytes. */
  lemma StrideLookup(l: bv32)
    ensures Xor(Xor(Xor(StrideTable(3, l & 0xff), StrideTable(2, (l >> 8) & 0xff)), StrideTable(1, (l >> 16) & 0xff)),
                StrideTable(0, l >> 24)) == Zero16(l)
  {
    hide Zero16, Xor;
    var a, b, c, d := l & 0xff, ((l >> 8) & 0xff) << 8, ((l >> 16) & 0xff) << 16, (l >> 24) << 24;
    FourParts(l);
    Zero16IsLinear(Xor(Xor(a, b), c), d);
    Zero16IsLinear(Xor(a, b), c);
    Zero16IsLinear(a, b);
  }

  // ------------------------------------------------------------------ words

  /** ReadUint32LE. */
  function Word(data: seq<Octet>, p: nat): bv32
    requires p + 4 <= |data|
  {
    Wide(data[p]) | (Wide(data[p + 1]) << 8) | (Wide(data[p + 2]) << 16) | (Wide(data[p + 3]) << 24)
  }

  lemma UpOut(w: bv32)
    requires Three(w)
    ensures Zero1(Up(w)) == w
  {
    ShiftOut(Up(w));
    assert Up(w) >> 8 == w;
  }

  lemma PeelByte(l: bv32, b: bv32, w: bv32)
    requires Three(w)
    ensures Zero1(Xor(l, Xor(b, Up(w)))) == Xor(Zero1(Xor(l, b)), w)
  {
    hide Zero1, Xor, Up, Three;
    XorLaws(l, b, Up(w));
    Zero1IsLinear(Xor(l, b), Up(w));
    UpOut(w);
  }

  /** A word as its bytes, lowest first. */
  lemma WordSplits(a: Octet, b: Octet, c: Octet, d: Octet)
    ensures Wide(a) | (Wide(b) << 8) | (Wide(c) << 16) | (Wide(d) << 24) ==
            Xor(Wide(a), Up(Xor(Wide(b), Up(Xor(Wide(c), Up(Wide(d)))))))
    ensures Three(Xor(Wide(b), Up(Xor(Wide(c), Up(Wide(d)))))) && Three(Xor(Wide(c), Up(Wide(d)))) && Three(Wide(d))
  {
  }

  lemma PeelAll(l: bv32, a: bv32, b: bv32, c: bv32, d: bv32)
    requires Three(Xor(b, Up(Xor(c, Up(d))))) && Three(Xor(c, Up(d))) && Three(d)
    ensures Zero4(Xor(l, Xor(a, Up(Xor(b, Up(Xor(c, Up(d)))))))) ==
            Zero1(Xor(Zero1(Xor(Zero1(Xor(Zero1(Xor(l, a)), b)), c)), d))
  {
    hide Zero1, Xor, Up, Three;
    PeelByte(l, a, Xor(b, Up(Xor(c, Up(d)))));
    PeelByte(Zero1(Xor(l, a)), b, Xor(c, Up(d)));
    PeelByte(Zero1(Xor(Zero1(Xor(l, a)), b)), c, d);
  }

  lemma FourBytes(l: bv32, data: seq<Octet>)
    requires |data| == 4
    ensures Register(l, data) ==
            Zero1(Xor(Zero1(Xor(Zero1(Xor(Zero1(Xor(l, Wide(data[0]))), Wide(data[1]))), Wide(data[2]))),
              Wide(data[3])))
  {
    hide Zero1, Xor, Wide;
    assert data[..3][..2] == data[..2] && data[..2][..1] == data[..1] && data[..1][..0] == [];
    assert Register(l, data[..1]) == Zero1(Xor(l, Wide(data[0])));
    assert Register(l, data[..2]) == Zero1(Xor(Register(l, data[..1]), Wide(data[1])));
    assert Register(l, data[..3]) == Zero1(Xor(Register(l, data[..2]), Wide(data[2])));
  }

  /** Processing a word at once is processing its four bytes. */
  lemma RegisterWord(l: bv32, data: seq<Octet>)
    requires |data| == 4
    ensures Register(l, data) == Zero4(Xor(l, Word(data, 0)))
  {
    hide Zero1, Zero4, Register, Xor, Wide, Up, Three;
    WordSplits(data[0], data[1], data[2], data[3]);
    FourBytes(l, data);
    PeelAll(l, Wide(data[0]), Wide(data[1]), Wide(data[2]), Wide(data[3]));
  }

  // ------------------------------------------------------------------ lanes

  /** What the four lanes stand for: the register after all bytes read into them. */
  function Combine(c0: bv32, c1: bv32, c2: bv32, c3: bv32): bv32 {
    Zero4(Xor(c3, Zero4(Xor(c2, Zero4(Xor(c1, Zero4(c0)))))))
  }

  /** Moving lane 0 on by a stride and reading a word into it processes that word. */
  lemma LaneStep(c0: bv32, c1: bv32, c2: bv32, c3: bv32, w: bv32)
    ensures Combine(c1, c2, c3, Xor(w, Zero16(c0))) == Zero4(Xor(Combine(c0, c1, c2, c3), w))
  {
    hide Zero4, Xor;
    var z1 := Zero4(c0);
    var z2 := Zero4(z1);
    var z3 := Zero4(z2);
    var r1 := Zero4(c1);
    var r2 := Zero4(Xor(c2, r1));
    var r3 := Zero4(Xor(c3, r2));
    Zero4IsLinear(c1, z1);
    XorLaws(c2, r1, z2);
    Zero4IsLinear(Xor(c2, r1), z2);
    XorLaws(c3, r2, z3);
    Zero4IsLinear(Xor(c3, r2), z3);
    assert Combine(c0, c1, c2, c3) == Xor(r3, Zero4(z3));
    assert Zero16(c0) == Zero4(z3);
    XorLaws(w, Zero4(z3), r3);
    XorLaws(Xor(r3, Zero4(z3)), w, w);
    XorLaws(Zero4(z3), r3, r3);
  }
  // ------------------------------------------------------------------ crc32c::Extend

  function Shifted(l: bv32): bv32 { l >> 8 }

  lemma ByteIntoLow(l: bv32, b: Octet)
    ensures Xor(Low(l), Wide(b)) == Low(Xor(l, Wide(b))) && Shifted(l) == Shifted(Xor(l, Wide(b)))
  {
  }

  /** STEP1: process one byte. */
  function Step1(l: bv32, b: Octet): (r: bv32)
    ensures r == Zero1(Xor(l, Wide(b)))
  {
    hide Xor, Zero1, Low, Wide, Shifted;
    ByteIntoLow(l, b);
    assert Xor(ByteTable(Low(Xor(l, Wide(b)))), Shifted(Xor(l, Wide(b)))) == Zero1(Xor(l, Wide(b))) by {
      ByteStep(Xor(l, Wide(b)));
    }
    Xor(ByteTable(Xor(Low(l), Wide(b))), Shifted(l))
  }

  lemma ByteStep(l: bv32)
    ensures Xor(ByteTable(Low(l)), Shifted(l)) == Zero1(l)
  {
    hide Xor, Zero1, Low;
    ByteLookup(l);
  }

  /** STEP4: advance one lane by sixteen bytes and read its next word. */
  function Step4(lane: bv32, w: bv32): (r: bv32)
    ensures r == Xor(w, Zero16(lane))
  {
    hide Xor, Zero16, StrideTable;
    StrideLookup(lane);
    var parts := Xor(Xor(Xor(StrideTable(3, lane & 0xff), StrideTable(2, (lane >> 8) & 0xff)),
                         StrideTable(1, (lane >> 16) & 0xff)), StrideTable(0, lane >> 24));
    Xor(w, parts)
  }

  function ZeroBytes(l: bv32, n: nat): bv32 {
    if n == 0 then l else Zero1(ZeroBytes(l, n - 1))
  }

  /** STEP4W: process a word already read. */
  method Step4W(word: bv32, l: bv32) returns (r: bv32)
    ensures r == Zero4(Xor(word, l))
  {
    hide Xor, Zero1, Low, Shifted, ByteTable;
    var w := Xor(word, l);
    ghost var start := w;
    for i := 0 to 4
      invariant w == ZeroBytes(start, i)
    {
      ByteStep(w);
      XorLaws(Shifted(w), ByteTable(Low(w)), w);
      w := Xor(Shifted(w), ByteTable(Low(w)));
    }
    r := w;
    assert ZeroBytes(start, 4) == Zero1(ZeroBytes(start, 3));
    assert ZeroBytes(start, 2) == Zero1(Zero1(start));
  }
  lemma NextByte(l: bv32, data: seq<Octet>, p: nat)
    requires p < |data|
    ensures Register(l, data[..p + 1]) == Zero1(Xor(Register(l, data[..p]), Wide(data[p])))
  {
    assert data[..p + 1][..p] == data[..p];
  }

  lemma NextWord(l: bv32, data: seq<Octet>, p: nat)
    requires p + 4 <= |data|
    ensures Register(l, data[..p + 4]) == Zero4(Xor(Register(l, data[..p]), Word(data, p)))
  {
    hide Register, Zero4, Xor, Wide;
    assert data[..p + 4] == data[..p] + data[p..p + 4];
    RegisterComposes(l, data[..p], data[p..p + 4]);
    RegisterWord(Register(l, data[..p]), data[p..p + 4]);
    assert Word(data[p..p + 4], 0) == Word(data, p);
  }

  /** The four lanes stand for the first `p` bytes. */
  ghost predicate LanesAt(c0: bv32, c1: bv32, c2: bv32, c3: bv32, l: bv32, data: seq<Octet>, p: nat) {
    p <= |data| && Combine(c0, c1, c2, c3) == Register(l, data[..p])
  }

  lemma LanesStep(c0: bv32, c1: bv32, c2: bv32, c3: bv32, l: bv32, data: seq<Octet>, p: nat)
    requires p + 4 <= |data| && LanesAt(c0, c1, c2, c3, l, data, p)
    ensures LanesAt(c1, c2, c3, Step4(c0, Word(data, p)), l, data, p + 4)
  {
    hide Register, Combine, Zero4, Zero16, Xor, Word, Step4;
    LaneStep(c0, c1, c2, c3, Word(data, p));
    NextWord(l, data, p);
  }

  /** The lanes as first loaded, from a register `l0`. */
  lemma LanesStart(l: bv32, data: seq<Octet>, p: nat, l0: bv32)
    requires p + 16 <= |data| && l0 == Register(l, data[..p])
    ensures LanesAt(Xor(Word(data, p), l0), Word(data, p + 4), Word(data, p + 8), Word(data, p + 12), l, data, p + 16)
  {
    hide Register, Zero4, Xor, Word;
    NextWord(l, data, p);
    NextWord(l, data, p + 4);
    NextWord(l, data, p + 8);
    NextWord(l, data, p + 12);
    var w0, w1, w2, w3 := Word(data, p), Word(data, p + 4), Word(data, p + 8), Word(data, p + 12);
    XorLaws(w0, l0, l0);
    XorLaws(w1, Zero4(Xor(w0, l0)), l0);
    XorLaws(w2, Zero4(Xor(w1, Zero4(Xor(w0, l0)))), l0);
    XorLaws(w3, Zero4(Xor(w2, Zero4(Xor(w1, Zero4(Xor(w0, l0)))))), l0);
  }

  /** The aligned computation gives the defined value for every length and every alignment of the data. */
  method Extend(crc: bv32, data: seq<Octet>, address: nat) returns (r: bv32)
    ensures r == Extended(crc, data)
  {
    hide Register, Combine, Zero1, Zero4, Zero16, Xor, Word, Wide, Step1, Step4;
    var n := |data|;
    var p := 0;
    ghost var start := Xor(crc, ALL_ONES);
    var l := Xor(crc, ALL_ONES);
    NoBytes(l, data);
    // The first 4-byte aligned byte, possibly past the end of the buffer.
    var x := (4 - address % 4) % 4;
    if x <= n {
      while p != x
        invariant p <= x && l == Register(start, data[..p])
        decreases x - p
      {
        NextByte(start, data, p);
        l, p := Step1(l, data[p]), p + 1;
      }
    }
    if n - p >= 16 {
      LanesStart(start, data, p, l);
      var c0, c1, c2, c3 := Xor(Word(data, p), l), Word(data, p + 4), Word(data, p + 8), Word(data, p + 12);
      p := p + 16;
      c0, c1, c2, c3, p := Strides(c0, c1, c2, c3, start, data, p);
      l := CombineLanes(c0, c1, c2, c3);
    }
    while p != n
      invariant p <= n && l == Register(start, data[..p])
      decreases n - p
    {
      NextByte(start, data, p);
      l, p := Step1(l, data[p]), p + 1;
    }
    assert data[..n] == data;
    r := Xor(l, ALL_ONES);
  }

  lemma NoBytes(l: bv32, data: seq<Octet>)
    ensures Register(l, data[..0]) == l
  {
  }

  /** Combine the four partial stride results. */
  method CombineLanes(c0: bv32, c1: bv32, c2: bv32, c3: bv32) returns (l: bv32)
    ensures l == Combine(c0, c1, c2, c3)
  {
    hide Xor, Zero4;
    XorZero(c0);
    l := 0;
    l := Step4W(c0, l);
    l := Step4W(c1, l);
    l := Step4W(c2, l);
    l := Step4W(c3, l);
  }

  lemma XorZero(x: bv32)
    ensures Xor(x, 0) == x
  {
  }

  /** The 16-byte and 4-byte loops over the lanes. */
  method Strides(a0: bv32, a1: bv32, a2: bv32, a3: bv32, ghost l: bv32, data: seq<Octet>, from: nat)
    returns (c0: bv32, c1: bv32, c2: bv32, c3: bv32, p: nat)
    requires LanesAt(a0, a1, a2, a3, l, data, from)
    ensures LanesAt(c0, c1, c2, c3, l, data, p) && |data| - p < 4
  {
    hide LanesAt, Step4, Word;
    c0, c1, c2, c3, p := a0, a1, a2, a3, from;
    while |data| - p >= 16
      invariant LanesAt(c0, c1, c2, c3, l, data, p)
    {
      LanesStep(c0, c1, c2, c3, l, data, p);
      c0 := Step4(c0, Word(data, p));
      LanesStep(c1, c2, c3, c0, l, data, p + 4);
      c1 := Step4(c1, Word(data, p + 4));
      LanesStep(c2, c3, c0, c1, l, data, p + 8);
      c2 := Step4(c2, Word(data, p + 8));
      LanesStep(c3, c0, c1, c2, l, data, p + 12);
      c3 := Step4(c3, Word(data, p + 12));
      p := p + 16;
    }
    while |data| - p >= 4
      invariant LanesAt(c0, c1, c2, c3, l, data, p)
    {
      LanesStep(c0, c1, c2, c3, l, data, p);
      c0, c1, c2, c3 := c1, c2, c3, Step4(c0, Word(data, p));
      p := p + 4;
    }
  }
  // ------------------------------------------------------------------ the source's table entries

  /** The entries at powers of two, which by linearity fix the whole table, are those of the source. */
  lemma ByteTableEntries()
    ensures ByteTable(1) == 0xf26b_8303
    ensures ByteTable(2) == 0xe13b_70f7
    ensures ByteTable(4) == 0xc79a_971f
    ensures ByteTable(8) == 0x8ad9_58cf
    ensures ByteTable(16) == 0x105e_c76f
    ensures ByteTable(32) == 0x20bd_8ede
    ensures ByteTable(64) == 0x417b_1dbc
    ensures ByteTable(128) == 0x82f6_3b78
  {
  }
}
