/** Bytes, fixed-width and variable-width numbers, and length-prefixed strings (util/coding.cc,
    util/coding.h). */
module Coding {
  type Byte = n: int | 0 <= n < 256
  type Bytes = seq<Byte>

  const WORD: nat := 0x1_0000_0000
  const LONG: nat := 0x1_0000_0000_0000_0000

  type Word = n: int | 0 <= n < WORD

  /** What a reader makes of the front of its input: a value and the rest, or a failure. */
  datatype Parsed<+T> = Failed | Parsed(value: T, rest: Bytes)

  // ------------------------------------------------------------------ fixed-width numbers

  function Fixed32(v: nat): (b: Bytes)
    requires v < WORD
    ensures |b| == 4
  {
    [v % 256, v / 256 % 256, v / 65536 % 256, v / 16777216]
  }

  function DecodeFixed32(b: Bytes): (v: nat)
    requires |b| >= 4
    ensures v < WORD
  {
    var b0: int, b1: int, b2: int, b3: int := b[0], b[1], b[2], b[3];
    b0 + b1 * 256 + b2 * 65536 + b3 * 16777216
  }

  lemma Fixed32RoundTrip(v: nat)
    requires v < WORD
    ensures DecodeFixed32(Fixed32(v)) == v
  {
    var q, r, s := v / 256, v / 65536, v / 16777216;
    assert r == q / 256 && s == r / 256;
    assert v == v % 256 + 256 * q && q == q % 256 + 256 * r && r == r % 256 + 256 * s;
  }

  lemma DecodesPrefix(a: Bytes, b: Bytes)
    requires |a| == 4
    ensures DecodeFixed32(a + b) == DecodeFixed32(a)
  {
  }

  /** An array of fixed-width numbers. */
  function Words(ws: seq<Word>): (b: Bytes)
    ensures |b| == 4 * |ws|
  {
    if ws == [] then [] else Words(ws[..|ws| - 1]) + Fixed32(ws[|ws| - 1])
  }

  lemma {:induction false} WordAt(before: Bytes, ws: seq<Word>, after: Bytes, i: nat)
    requires i < |ws|
    ensures DecodeFixed32((before + Words(ws) + after)[|before| + 4 * i..]) == ws[i]
  {
    hide Fixed32, DecodeFixed32;
    var n := |ws| - 1;
    var all := before + Words(ws) + after;
    var last := Fixed32(ws[n]);
    assert all == before + Words(ws[..n]) + (last + after);
    if i == n {
      assert all[|before| + 4 * i..] == last + after;
      DecodesPrefix(last, after);
      Fixed32RoundTrip(ws[n]);
    } else {
      WordAt(before, ws[..n], last + after, i);
    }
  }

  lemma WordsGrow(ws: seq<Word>, w: Word)
    ensures Words(ws + [w]) == Words(ws) + Fixed32(w)
  {
    assert (ws + [w])[..|ws|] == ws;
  }

  /** Append an array of fixed-width numbers. */
  method PutWords(dst: Bytes, ws: seq<Word>) returns (b: Bytes)
    ensures b == dst + Words(ws)
  {
    b := dst;
    for i := 0 to |ws|
      invariant b == dst + Words(ws[..i])
    {
      assert ws[..i + 1] == ws[..i] + [ws[i]];
      WordsGrow(ws[..i], ws[i]);
      b := b + Fixed32(ws[i]);
    }
    assert ws[..|ws|] == ws;
  }

  function Fixed64(v: nat): (b: Bytes)
    requires v < LONG
    ensures |b| == 8
  {
    Fixed32(v % WORD) + Fixed32(v / WORD)
  }

  function DecodeFixed64(b: Bytes): (v: nat)
    requires |b| >= 8
    ensures v < LONG
  {
    DecodeFixed32(b) + WORD * DecodeFixed32(b[4..])
  }

  lemma Fixed64RoundTrip(v: nat, tail: Bytes)
    requires v < LONG
    ensures DecodeFixed64(Fixed64(v) + tail) == v
  {
    hide Fixed32, DecodeFixed32;
    var lo, hi := Fixed32(v % WORD), Fixed32(v / WORD);
    assert Fixed64(v) + tail == lo + (hi + tail) && (lo + (hi + tail))[4..] == hi + tail;
    DecodesPrefix(lo, hi + tail);
    DecodesPrefix(hi, tail);
    Fixed32RoundTrip(v % WORD);
    Fixed32RoundTrip(v / WORD);
  }

  // ------------------------------------------------------------------ varints

  /** Seven bits a byte, least significant first, the top bit marking that more bytes follow. */
  function Varint(v: nat): (b: Bytes)
    ensures |b| > 0
  {
    if v < 128 then [v] else [128 + v % 128] + Varint(v / 128)
  }

  /** A number in at most `n` such bytes. */
  function Groups(input: Bytes, n: nat): (p: Parsed<nat>)
    ensures p.Parsed? ==> exists k :: 0 < k <= |input| && k <= n && p.rest == input[k..]
  {
    if n == 0 || input == [] then Failed
    else if input[0] < 128 then
      assert input[1..] == input[1..];
      Parsed(input[0], input[1..])
    else
      match Groups(input[1..], n - 1)
      case Failed => Failed
      case Parsed(v, rest) =>
        var k :| 0 < k <= |input[1..]| && k <= n - 1 && rest == input[1..][k..];
        assert rest == input[k + 1..];
        Parsed(input[0] - 128 + 128 * v, rest)
  }

  datatype Width = W32 | W64

  function MaxBytes(w: Width): nat {
    if w.W32? then 5 else 10
  }

  /** Unsigned arithmetic drops the bits that do not fit. */
  function Wrap(w: Width, v: nat): nat {
    if w.W32? then v % WORD else v % LONG
  }

  function GetVarint(input: Bytes, w: Width): Parsed<nat> {
    match Groups(input, MaxBytes(w))
    case Failed => Failed
    case Parsed(v, rest) => Parsed(Wrap(w, v), rest)
  }

  function GetVarint32(input: Bytes): Parsed<nat> {
    GetVarint(input, W32)
  }

  function GetVarint64(input: Bytes): Parsed<nat> {
    GetVarint(input, W64)
  }

  function Pow128(n: nat): (p: nat)
    ensures p > 0
  {
    if n == 0 then 1 else 128 * Pow128(n - 1)
  }

  lemma Pow128Of5()
    ensures Pow128(5) == 8 * WORD
  {
    assert Pow128(5) == 128 * Pow128(4) == 16384 * Pow128(3) == 2097152 * Pow128(2);
  }

  lemma Pow128Of10()
    ensures Pow128(10) == 64 * LONG
  {
    Pow128Of5();
    assert Pow128(10) == 128 * Pow128(9) == 16384 * Pow128(8) == 2097152 * Pow128(7);
    assert Pow128(7) == 128 * Pow128(6) == 16384 * Pow128(5);
  }

  lemma {:induction false} GroupsRoundTrip(v: nat, tail: Bytes, n: nat)
    requires v < Pow128(n) && n > 0
    ensures Groups(Varint(v) + tail, n) == Parsed(v, tail)
    ensures |Varint(v)| <= n
  {
    if v >= 128 {
      DividesDown(v, n);
      GroupsRoundTrip(v / 128, tail, n - 1);
      VarintUnfolds(v, tail);
      GroupsUnfold(128 + v % 128, Varint(v / 128) + tail, n);
    } else {
      assert ([v] + tail)[1..] == tail;
    }
  }

  lemma DividesDown(v: nat, n: nat)
    requires 128 <= v < Pow128(n)
    ensures n > 1 && v / 128 < Pow128(n - 1)
  {
    assert Pow128(0) == 1 && Pow128(1) == 128 * Pow128(0);
  }

  lemma VarintUnfolds(v: nat, tail: Bytes)
    requires v >= 128
    ensures Varint(v) + tail == [128 + v % 128] + (Varint(v / 128) + tail) && |Varint(v)| == 1 + |Varint(v / 128)|
  {
    hide Groups;
  }

  lemma GroupsUnfold(byte: Byte, rest: Bytes, n: nat)
    requires byte >= 128 && n > 0
    ensures Groups([byte] + rest, n) ==
            var more := Groups(rest, n - 1);
              if more.Failed? then more else Parsed(byte - 128 + 128 * more.value, more.rest)
  {
    hide Varint;
    assert ([byte] + rest)[1..] == rest;
  }

  lemma Varint32RoundTrip(v: nat, tail: Bytes)
    requires v < WORD
    ensures GetVarint32(Varint(v) + tail) == Parsed(v, tail) && |Varint(v)| <= 5
  {
    hide Groups, Varint, Pow128;
    Pow128Of5();
    GroupsRoundTrip(v, tail, 5);
  }

  lemma Varint64RoundTrip(v: nat, tail: Bytes)
    requires v < LONG
    ensures GetVarint64(Varint(v) + tail) == Parsed(v, tail) && |Varint(v)| <= 10
  {
    hide Groups, Varint, Pow128;
    Pow128Of10();
    GroupsRoundTrip(v, tail, 10);
  }

  /** A varint that is cut short does not parse. */
  lemma {:induction false} TruncatedVarintFails(v: nat, k: nat, n: nat)
    requires k < |Varint(v)|
    ensures Groups(Varint(v)[..k], n) == Failed
  {
    if n > 0 && k > 0 && v >= 128 {
      TruncatedVarintFails(v / 128, k - 1, n - 1);
      assert Varint(v)[..k][1..] == Varint(v / 128)[..k - 1];
    }
  }

  /** EncodeVarint32 spells its five cases out. */
  method EncodeVarint32(v: nat) returns (b: Bytes)
    requires v < WORD
    ensures b == Varint(v)
  {
    if v < 128 {
      b := [v];
    } else if v < 16384 {
      b := [128 + v % 128, v / 128];
    } else if v < 2097152 {
      b := [128 + v % 128, 128 + v / 128 % 128, v / 16384];
    } else if v < 268435456 {
      b := [128 + v % 128, 128 + v / 128 % 128, 128 + v / 16384 % 128, v / 2097152];
    } else {
      b := [128 + v % 128, 128 + v / 128 % 128, 128 + v / 16384 % 128, 128 + v / 2097152 % 128, v / 268435456];
    }
    VarintUnrolls(v);
  }

  lemma VarintUnrolls(v: nat)
    requires v < WORD
    ensures v >= 128 ==> Varint(v) == [128 + v % 128] + Varint(v / 128)
    ensures v >= 16384 ==> Varint(v / 128) == [128 + v / 128 % 128] + Varint(v / 16384)
    ensures v >= 2097152 ==> Varint(v / 16384) == [128 + v / 16384 % 128] + Varint(v / 2097152)
    ensures v >= 268435456 ==> Varint(v / 2097152) == [128 + v / 2097152 % 128] + Varint(v / 268435456)
  {
    assert v / 128 / 128 == v / 16384 && v / 16384 / 128 == v / 2097152 && v / 2097152 / 128 == v / 268435456;
  }

  method EncodeVarint64(v: nat) returns (b: Bytes)
    requires v < LONG
    ensures b == Varint(v)
  {
    var w := v;
    b := [];
    while w >= 128
      invariant b + Varint(w) == Varint(v)
    {
      assert b + Varint(w) == b + [128 + w % 128] + Varint(w / 128);
      b := b + [128 + w % 128];
      w := w / 128;
    }
    b := b + [w];
  }

  method VarintLength(v: nat) returns (len: nat)
    requires v < LONG
    ensures len == |Varint(v)|
  {
    var w := v;
    len := 1;
    while w >= 128
      invariant len + |Varint(w)| == 1 + |Varint(v)|
    {
      w := w / 128;
      len := len + 1;
    }
  }

  /** What the bytes read so far make together with those still to come. */
  function Continued(result: nat, shift: nat, more: Parsed<nat>, w: Width): Parsed<nat> {
    match more
    case Failed => Failed
    case Parsed(v, rest) => Parsed(Wrap(w, result + Pow128(shift) * v), rest)
  }

  lemma WrapAdds(w: Width, a: nat, b: nat)
    ensures Wrap(w, Wrap(w, a) + b) == Wrap(w, a + b)
  {
  }

  lemma RegroupBits(p: nat, byte: nat, v: nat)
    requires byte >= 128
    ensures p * (byte - 128 + 128 * v) == (byte - 128) * p + (128 * p) * v
  {
    calc {
      p * (byte - 128 + 128 * v);
      p * (byte - 128) + p * (128 * v);
    }
  }

  /** One more byte of a number, with the bits beyond the width dropped. */
  lemma ContinuedStep(result: nat, shift: nat, byte: Byte, more: Parsed<nat>, w: Width)
    requires byte >= 128
    ensures Continued(Wrap(w, result + (byte - 128) * Pow128(shift)), shift + 1, more, w) ==
            Continued(result, shift, if more.Failed? then more else Parsed(byte - 128 + 128 * more.value, more.rest), w)
  {
    hide Wrap;
    if more.Parsed? {
      RegroupBits(Pow128(shift), byte, more.value);
      WrapAdds(w, result + (byte - 128) * Pow128(shift), Pow128(shift + 1) * more.value);
    }
  }

  lemma GroupsStep(input: Bytes, shift: nat, n: nat)
    requires shift < n && shift < |input|
    ensures Groups(input[shift..], n - shift) ==
            if input[shift] < 128 then Parsed(input[shift], input[shift + 1..])
            else var more := Groups(input[shift + 1..], n - shift - 1);
                 if more.Failed? then more else Parsed(input[shift] - 128 + 128 * more.value, more.rest)
  {
    assert input[shift..][1..] == input[shift + 1..];
  }

  /** GetVarint32PtrFallback and GetVarint64Ptr.  The bits or-ed into the result are disjoint from
      those already there, so or is addition; those shifted beyond the width are lost. */
  method GetVarintFallback(input: Bytes, w: Width) returns (p: Parsed<nat>)
    ensures p == GetVarint(input, w)
  {
    hide Groups, Pow128, Wrap, MaxBytes;
    var result: nat, shift: nat := 0, 0;
    StartOf(input, w);
    while shift < MaxBytes(w) && shift < |input|
      invariant shift <= MaxBytes(w) && shift <= |input|
      invariant GetVarint(input, w) == Continued(result, shift, Groups(input[shift..], MaxBytes(w) - shift), w)
    {
      var byte := input[shift];
      GroupsStep(input, shift, MaxBytes(w));
      if byte < 128 {
        return Parsed(Wrap(w, result + Pow128(shift) * byte), input[shift + 1..]);
      }
      ContinuedStep(result, shift, byte, Groups(input[shift + 1..], MaxBytes(w) - shift - 1), w);
      result := Wrap(w, result + (byte - 128) * Pow128(shift));
      shift := shift + 1;
    }
    EndOf(input[shift..], MaxBytes(w) - shift);
    return Failed;
  }

  lemma StartOf(input: Bytes, w: Width)
    ensures GetVarint(input, w) == Continued(0, 0, Groups(input[0..], MaxBytes(w)), w)
  {
    assert input[0..] == input;
  }

  lemma EndOf(input: Bytes, n: nat)
    requires n == 0 || input == []
    ensures Groups(input, n) == Failed
  {
  }

  /** GetVarint32Ptr: one byte is decoded in place. */
  method GetVarint32Ptr(input: Bytes) returns (p: Parsed<nat>)
    ensures p == GetVarint32(input)
  {
    if input != [] {
      if input[0] < 128 {
        return Parsed(input[0], input[1..]);
      }
    }
    p := GetVarintFallback(input, W32);
  }

  // ------------------------------------------------------------------ length-prefixed strings

  function Prefixed(s: Bytes): (b: Bytes)
    ensures |b| > |s|
  {
    Varint(|s|) + s
  }

  function GetPrefixed(input: Bytes): Parsed<Bytes> {
    match GetVarint32(input)
    case Failed => Failed
    case Parsed(len, rest) => if len <= |rest| then Parsed(rest[..len], rest[len..]) else Failed
  }

  lemma PrefixedRoundTrip(s: Bytes, tail: Bytes)
    requires |s| < WORD
    ensures GetPrefixed(Prefixed(s) + tail) == Parsed(s, tail)
  {
    hide GetVarint32, Varint;
    assert Prefixed(s) + tail == Varint(|s|) + (s + tail);
    Varint32RoundTrip(|s|, s + tail);
  }

  /** A reader that succeeds uses up input. */
  lemma ReadersTake(input: Bytes)
    ensures var p := GetVarint32(input); p.Parsed? ==> |p.rest| < |input|
    ensures var p := GetVarint64(input); p.Parsed? ==> |p.rest| < |input|
    ensures var p := GetPrefixed(input); p.Parsed? ==> |p.rest| < |input|
  {
    hide Groups;
  }
}
