/** What pb_decode_varint32 makes of any bytes (pb_decode.c), against the number that the bytes stand for.  Beyond
    32 bits it checks less than a sign extension needs. */
module PbVarints {
  import opened Coding
  import opened Keys
  import opened Pb
  import opened PbDecode
  import opened PbRoundTrip

  /** Marks on all bytes but the last: how a number of any length is written. */
  ghost predicate Marked(w: Bytes) {
    w != [] && w[|w| - 1] < 128 && forall i :: 0 <= i < |w| - 1 ==> w[i] >= 128
  }

  /** The number of any length that the bytes stand for, the lowest seven bits first. */
  function Number(w: Bytes): nat {
    if w == [] then 0 else w[0] % 128 + 128 * Number(w[1..])
  }

  /** A byte beyond the fifth that passes: it adds nothing, or looks like part of a sign extension. */
  predicate Passes(byte: nat, k: nat, low: nat) {
    byte % 128 == 0 || (low >= 0x8000_0000 && byte == if k < 9 then 255 else 1)
  }

  ghost predicate Accepts(w: Bytes, from: nat, low: nat) {
    && (forall i :: 0 <= i < |w| && from + i >= 5 ==> Passes(w[i], from + i, low))
    && (from + |w| == 5 && w != [] ==> w[|w| - 1] < 16)
  }

  // ------------------------------------------------------------------ the loop

  /** The bits of a number that is spread over a part gathered and the rest. */
  lemma Joins(result: nat, low: nat, more: nat, p: nat)
    ensures ((result + low * p) % WORD + more * (128 * p)) % WORD == (result + (low + 128 * more) * p) % WORD
  {
    assert low * p + more * (128 * p) == (low + 128 * more) * p;
    ModJoins(result + low * p, more * (128 * p));
  }

  lemma ModJoins(a: nat, b: nat)
    ensures (a % WORD + b) % WORD == (a + b) % WORD
  {
  }

  lemma {:induction false} HighBitsDrop(result: nat, more: nat, k: nat)
    requires k >= 5 && result < WORD
    ensures (result + more * Pow128(k)) % WORD == result
    decreases k
  {
    if k == 5 {
      Pow128Of5();
      hide Pow128;
      Multiple(result, more * 8);
      assert more * (8 * WORD) == more * 8 * WORD;
    } else {
      HighBitsDrop(result, more * 128, k - 1);
      assert Pow128(k) == 128 * Pow128(k - 1);
      hide Pow128;
      Swap(more, Pow128(k - 1));
    }
  }

  lemma Swap(more: nat, p: nat)
    ensures more * 128 * p == more * (128 * p)
  {
  }

  lemma Multiple(result: nat, more: nat)
    requires result < WORD
    ensures (result + more * WORD) % WORD == result
  {
  }

  /** What has been gathered after one more byte, as the end will see it. */
  lemma GatheredJoins(result: nat, byte: nat, k: nat, more: nat)
    requires result < WORD
    ensures Gathered(result, byte, k) < WORD
    ensures (Gathered(result, byte, k) + more * Pow128(k + 1)) % WORD ==
            (result + (byte % 128 + 128 * more) * Pow128(k)) % WORD
  {
    assert Pow128(k + 1) == 128 * Pow128(k);
    if k >= 5 {
      HighBitsDrop(result, more, k + 1);
      HighBitsDrop(result, byte % 128 + 128 * more, k);
    } else {
      hide Pow128;
      Joins(result, byte % 128, more, Pow128(k));
    }
  }

  /** From byte `k` on: the number, if nothing stands in its way. */
  lemma {:induction false} RestIs(w: Bytes, tail: Bytes, result: nat, k: nat)
    requires Marked(w) && k >= 1 && result < WORD
    ensures var low := (result + Number(w) * Pow128(k)) % WORD;
            Varint32Rest(w + tail, result, k) == if Accepts(w, k, low) then Parsed(low, tail) else Failed
    decreases |w|
  {
    hide Pow128, Gathered;
    var low := (result + Number(w) * Pow128(k)) % WORD;
    var rest, gathered := w[1..], Gathered(result, w[0], k);
    var input := w + tail;
    assert input[0] == w[0] && input[1..] == rest + tail;
    Unfolds(input, result, k);
    GatheredJoins(result, w[0], k, Number(rest));
    if k >= 5 {
      LowIsResult(w, result, k);
    }
    FirstPasses(w, k, low);
    if |w| == 1 {
      assert rest == [] && gathered == low by { OneByte(w, result, k); }
      assert rest + tail == tail;
    } else {
      assert Marked(rest);
      RestIs(rest, tail, gathered, k + 1);
    }
  }

  lemma LowIsResult(w: Bytes, result: nat, k: nat)
    requires k >= 5 && result < WORD
    ensures (result + Number(w) * Pow128(k)) % WORD == result
  {
    HighBitsDrop(result, Number(w), k);
  }

  lemma OneByte(w: Bytes, result: nat, k: nat)
    requires |w| == 1 && result < WORD
    ensures Gathered(result, w[0], k) == (result + Number(w) * Pow128(k)) % WORD
  {
    hide Pow128;
    assert Number(w[1..]) == 0;
    GatheredJoins(result, w[0], k, 0);
    assert 0 * Pow128(k + 1) == 0;
  }

  lemma FirstPasses(w: Bytes, k: nat, low: nat)
    requires w != []
    ensures Accepts(w, k, low) <==>
            && (k >= 5 ==> Passes(w[0], k, low))
            && (if |w| == 1 then k == 4 ==> w[0] < 16 else Accepts(w[1..], k + 1, low))
  {
    hide Passes;
    if |w| > 1 {
      assert forall i :: 0 <= i < |w[1..]| ==> w[1..][i] == w[i + 1];
      if Accepts(w[1..], k + 1, low) && (k >= 5 ==> Passes(w[0], k, low)) {
        forall i | 0 <= i < |w| && k + i >= 5 ensures Passes(w[i], k + i, low) {
          if i > 0 { assert Passes(w[1..][i - 1], k + 1 + (i - 1), low); }
        }
      }
      if Accepts(w, k, low) {
        forall i | 0 <= i < |w[1..]| && k + 1 + i >= 5 ensures Passes(w[1..][i], k + 1 + i, low) {
          assert Passes(w[i + 1], k + (i + 1), low);
        }
      }
    }
  }

  lemma Unfolds(input: Bytes, result: nat, k: nat)
    requires input != []
    ensures Varint32Rest(input, result, k) ==
            var gathered := Gathered(result, input[0], k);
            if k >= 5 && !Passes(input[0], k, result) then Failed
            else if input[0] >= 128 then Varint32Rest(input[1..], gathered, k + 1)
            else if k == 4 && input[0] >= 16 then Failed
            else Parsed(gathered, input[1..])
  {
  }

  // ------------------------------------------------------------------ what is read

  /** For all bytes that mark a number's end: the low 32 bits of the number are read, if its fifth byte is the last one
      and has no more than four bits, or if each byte beyond the fifth passes; otherwise nothing is. */
  lemma Varint32Is(w: Bytes, tail: Bytes)
    requires Marked(w)
    ensures Varint32(w + tail) ==
            if Accepts(w, 0, Number(w) % WORD) then Parsed(Number(w) % WORD, tail) else Failed
  {
    hide Varint32Rest, Accepts, Pow128, Number;
    var input, rest, low := w + tail, w[1..], Number(w) % WORD;
    assert input[0] == w[0] && input[1..] == rest + tail;
    FirstPasses(w, 0, low);
    NumberStarts(w);
    if |w| == 1 {
      assert rest == [] && rest + tail == tail;
    } else {
      FirstPower();
      RestIs(rest, tail, w[0] - 128, 1);
    }
  }

  lemma NumberStarts(w: Bytes)
    requires w != []
    ensures Number(w) == (if w[0] >= 128 then w[0] - 128 else w[0]) + Number(w[1..]) * 128
    ensures |w| == 1 ==> Number(w[1..]) == 0
  {
  }

  lemma FirstPower()
    ensures Pow128(1) == 128
  {
    assert Pow128(1) == 128 * Pow128(0);
  }

  /** Bytes without an end hold no number. */
  lemma {:induction false} EndlessFails(w: Bytes, result: nat, k: nat)
    requires forall i :: 0 <= i < |w| ==> w[i] >= 128
    ensures Varint32Rest(w, result, k) == Failed
    decreases |w|
  {
    hide Gathered;
    if w != [] {
      EndlessFails(w[1..], Gathered(result, w[0], k), k + 1);
    }
  }

  lemma NoEndNoNumber(w: Bytes)
    requires forall i :: 0 <= i < |w| ==> w[i] >= 128
    ensures Varint32(w) == Failed
  {
    if w != [] {
      EndlessFails(w[1..], w[0] - 128, 1);
    }
  }

  /** Numbers of 64 bits: ten bytes at most, and the bits beyond are dropped. */
  lemma Varint64Is(w: Bytes, tail: Bytes)
    requires Marked(w)
    ensures GetVarint64(w + tail) == if |w| <= 10 then Parsed(Number(w) % LONG, tail) else Failed
  {
    hide Groups, Number;
    GroupsAre(w, tail, 10);
  }

  lemma {:induction false} GroupsAre(w: Bytes, tail: Bytes, n: nat)
    requires Marked(w)
    ensures Groups(w + tail, n) == if |w| <= n then Parsed(Number(w), tail) else Failed
    decreases |w|
  {
    hide Number, Groups;
    if n == 0 {
      NoBytes(w + tail);
    } else {
      var rest := w[1..];
      assert (w + tail)[1..] == rest + tail;
      GroupsStart(w + tail, n);
      NumberStarts(w);
      if |w| == 1 {
        assert rest == [] && rest + tail == tail;
      } else {
        assert Marked(rest);
        GroupsAre(rest, tail, n - 1);
      }
    }
  }

  lemma NoBytes(input: Bytes)
    ensures Groups(input, 0) == Failed
  {
  }

  lemma GroupsStart(input: Bytes, n: nat)
    requires input != [] && n > 0
    ensures Groups(input, n) ==
            if input[0] < 128 then Parsed(input[0], input[1..])
            else if Groups(input[1..], n - 1).Failed? then Failed
            else Parsed(input[0] - 128 + 128 * Groups(input[1..], n - 1).value, Groups(input[1..], n - 1).rest)
  {
  }

  // ------------------------------------------------------------------ numbers as they are written

  lemma {:induction false} VarintIsMarked(v: nat)
    ensures Marked(Varint(v)) && Number(Varint(v)) == v
  {
    VarintIs(v);
    if v >= 128 {
      VarintIsMarked(v / 128);
      assert Varint(v)[1..] == Varint(v / 128);
    } else {
      assert Varint(v)[1..] == [];
    }
  }

  lemma {:induction false} ByteAt(v: nat, i: nat)
    requires i < |Varint(v)|
    ensures Varint(v)[i] == if i + 1 < |Varint(v)| then 128 + Shifted(v, i) % 128 else Shifted(v, i)
    ensures i + 1 == |Varint(v)| && i > 0 ==> Varint(v)[i] > 0
    ensures i + 1 < |Varint(v)| <==> Shifted(v, i) >= 128
  {
    VarintIs(v);
    if v >= 128 && i > 0 {
      assert Varint(v)[1..] == Varint(v / 128);
      ByteAt(v / 128, i - 1);
    }
  }

  /** The number without its lowest groups of seven bits. */
  function Shifted(v: nat, i: nat): nat {
    if i == 0 then v else Shifted(v / 128, i - 1)
  }

  /** A number of more than 32 bits and no more than 63 is refused. */
  lemma LongNumberFails(v: nat, tail: Bytes)
    requires WORD <= v < 0x8000_0000_0000_0000
    ensures Varint32(Varint(v) + tail) == Failed
  {
    hide Varint, Number, Varint32, Marked, Shifted;
    var w := Varint(v);
    VarintIsMarked(v);
    Varint32Is(w, tail);
    LengthIs(v);
    var n := |w| - 1;
    ByteAt(v, n);
    if n == 4 {
      assert w[4] >= 16;
      assert !Accepts(w, 0, v % WORD);
    } else {
      assert 5 <= n < 9 && 0 < w[n] < 128;
      assert !Passes(w[n], 0 + n, v % WORD);
    }
  }

  lemma LengthIs(v: nat)
    requires WORD <= v < 0x8000_0000_0000_0000
    ensures 5 <= |Varint(v)| <= 9
    ensures |Varint(v)| == 5 ==> Shifted(v, 4) >= 16
  {
    hide Varint;
    VarintIs(v);
    VarintIs(v / 0x80);
    VarintIs(v / 0x80 / 0x80);
    VarintIs(v / 0x80 / 0x80 / 0x80);
    Fours(v);
    Atmost5(v / 0x80 / 0x80 / 0x80 / 0x80);
  }

  lemma Fours(v: nat)
    requires WORD <= v < 0x8000_0000_0000_0000
    ensures v / 0x80 / 0x80 / 0x80 / 0x80 == Shifted(v, 4) == v / 0x1000_0000
    ensures 16 <= v / 0x1000_0000 < 0x8_0000_0000
  {
    assert Shifted(v, 4) == Shifted(v / 0x80, 3) == Shifted(v / 0x80 / 0x80, 2) == Shifted(v / 0x80 / 0x80 / 0x80, 1);
  }

  lemma Atmost5(v: nat)
    requires v < 0x8_0000_0000
    ensures 1 <= |Varint(v)| <= 5
  {
    hide Varint;
    VarintIs(v);
    VarintIs(v / 0x80);
    VarintIs(v / 0x80 / 0x80);
    VarintIs(v / 0x80 / 0x80 / 0x80);
    VarintIs(v / 0x80 / 0x80 / 0x80 / 0x80);
  }

  ghost predicate BlankOrFull(v: nat, i: nat) {
    Shifted(v, i) % 128 == 0 || Shifted(v, i) % 128 == 127
  }

  /** A number of 64 bits, as a negative one is written: bit 31 must be set, and the groups from bit 35 to bit 62 must
      each be blank or full. */
  lemma NegativeIs(v: nat, tail: Bytes)
    requires 0x8000_0000_0000_0000 <= v < LONG
    ensures Varint32(Varint(v) + tail) ==
            if v % WORD >= 0x8000_0000 && BlankOrFull(v, 5) && BlankOrFull(v, 6) && BlankOrFull(v, 7) &&
              BlankOrFull(v, 8)
            then Parsed(v % WORD, tail) else Failed
  {
    hide Varint, Number, Varint32, Marked, Shifted;
    var w, low := Varint(v), v % WORD;
    VarintIsMarked(v);
    Varint32Is(w, tail);
    TenBytes(v);
    LastGroup(v);
    ByteAt(v, 5);
    ByteAt(v, 6);
    ByteAt(v, 7);
    ByteAt(v, 8);
    ByteAt(v, 9);
    assert Passes(w[9], 0 + 9, low) <==> low >= 0x8000_0000;
    FiveOthers(w, low);
    if low >= 0x8000_0000 {
      GroupPasses(v, 5, w[5], low);
      GroupPasses(v, 6, w[6], low);
      GroupPasses(v, 7, w[7], low);
      GroupPasses(v, 8, w[8], low);
    }
  }

  lemma GroupPasses(v: nat, i: nat, byte: nat, low: nat)
    requires i < 9 && byte == 128 + Shifted(v, i) % 128 && low >= 0x8000_0000
    ensures Passes(byte, 0 + i, low) <==> BlankOrFull(v, i)
  {
    hide Shifted;
  }

  lemma FiveOthers(w: Bytes, low: nat)
    requires |w| == 10
    ensures Accepts(w, 0, low) <==>
            Passes(w[5], 5, low) && Passes(w[6], 6, low) && Passes(w[7], 7, low) && Passes(w[8], 8, low)
            && Passes(w[9], 9, low)
  {
    hide Passes;
    if Accepts(w, 0, low) {
      assert forall i :: 0 <= i < |w| && 0 + i >= 5 ==> Passes(w[i], 0 + i, low);
      assert Passes(w[5], 0 + 5, low) && Passes(w[6], 0 + 6, low) && Passes(w[7], 0 + 7, low);
      assert Passes(w[8], 0 + 8, low) && Passes(w[9], 0 + 9, low);
    }
  }

  lemma TenBytes(v: nat)
    requires 0x8000_0000_0000_0000 <= v < LONG
    ensures |Varint(v)| == 10
  {
    hide Varint;
    VarintIs(v);
    VarintIs(v / 0x80);
    VarintIs(v / 0x80 / 0x80);
    VarintIs(v / 0x80 / 0x80 / 0x80);
    var u := v / 0x80 / 0x80 / 0x80 / 0x80;
    VarintIs(u);
    VarintIs(u / 0x80);
    VarintIs(u / 0x80 / 0x80);
    VarintIs(u / 0x80 / 0x80 / 0x80);
    VarintIs(u / 0x80 / 0x80 / 0x80 / 0x80);
    VarintIs(1);
  }

  lemma LastGroup(v: nat)
    requires 0x8000_0000_0000_0000 <= v < LONG
    ensures Shifted(v, 9) == 1
  {
    assert Shifted(v, 9) == Shifted(v / 0x80, 8) == Shifted(v / 0x80 / 0x80, 7) == Shifted(v / 0x80 / 0x80 / 0x80, 6);
    var u := v / 0x80 / 0x80 / 0x80 / 0x80;
    assert Shifted(v, 9) == Shifted(u, 5) == Shifted(u / 0x80, 4) == Shifted(u / 0x80 / 0x80, 3);
    assert Shifted(u, 5) == Shifted(u / 0x80 / 0x80 / 0x80, 2) == Shifted(u / 0x80 / 0x80 / 0x80 / 0x80, 1);
  }

  /** Sign extensions of negative 32-bit numbers are read. */
  lemma SignExtensionReads(v: nat, tail: Bytes)
    requires LONG - 0x8000_0000 <= v < LONG
    ensures Varint32(Varint(v) + tail) == Parsed(v % WORD, tail)
  {
    hide Varint, Varint32, Shifted;
    NegativeIs(v, tail);
    HighGroups(v);
  }

  lemma HighGroups(v: nat)
    requires LONG - 0x8000_0000 <= v < LONG
    ensures Shifted(v, 5) % 128 == Shifted(v, 6) % 128 == Shifted(v, 7) % 128 == Shifted(v, 8) % 128 == 127
  {
    var u := v / 0x80 / 0x80 / 0x80 / 0x80 / 0x80;
    assert u == 0x1FFF_FFFF;
    assert Shifted(v, 5) == Shifted(v / 0x80, 4) == Shifted(v / 0x80 / 0x80, 3) == Shifted(v / 0x80 / 0x80 / 0x80, 2)
      == Shifted(v / 0x80 / 0x80 / 0x80 / 0x80, 1) == Shifted(u, 0) == u;
    ShiftedTwice(v, 5, 1);
    ShiftedTwice(v, 5, 2);
    ShiftedTwice(v, 5, 3);
    assert Shifted(u, 1) == u / 128 && Shifted(u, 2) == Shifted(u / 128, 1) && Shifted(u, 3) == Shifted(u / 128, 2);
  }

  lemma {:induction false} ShiftedTwice(v: nat, i: nat, j: nat)
    ensures Shifted(v, i + j) == Shifted(Shifted(v, i), j)
  {
    if i > 0 {
      ShiftedTwice(v / 128, i - 1, j);
    }
  }

  /** But other numbers are read as well, and as what they are not: 2^63 + 2^31 comes out as 2^31. */
  lemma NoSignExtensionReads(tail: Bytes)
    ensures Varint32(Varint(0x8000_0000_8000_0000) + tail) == Parsed(0x8000_0000, tail)
  {
    hide Varint, Varint32, Shifted;
    var v: nat := 0x8000_0000_8000_0000;
    NegativeIs(v, tail);
    BlankGroups(v);
  }

  lemma BlankGroups(v: nat)
    requires v == 0x8000_0000_8000_0000
    ensures Shifted(v, 5) % 128 == Shifted(v, 6) % 128 == Shifted(v, 7) % 128 == Shifted(v, 8) % 128 == 0
  {
    var u := v / 0x80 / 0x80 / 0x80 / 0x80 / 0x80;
    assert u == 0x1000_0000;
    assert Shifted(v, 5) == Shifted(v / 0x80, 4) == Shifted(v / 0x80 / 0x80, 3) == Shifted(v / 0x80 / 0x80 / 0x80, 2)
      == Shifted(v / 0x80 / 0x80 / 0x80 / 0x80, 1) == Shifted(u, 0) == u;
    ShiftedTwice(v, 5, 1);
    ShiftedTwice(v, 5, 2);
    ShiftedTwice(v, 5, 3);
    assert Shifted(u, 1) == u / 128 && Shifted(u, 2) == Shifted(u / 128, 1) && Shifted(u, 3) == Shifted(u / 128, 2);
  }
}
