/** What the protocol buffer decoder does with wire forms its encoder does not make (pb_decode.c): numbers out of range,
    data of the wrong size, repeated and displaced fields, unknown wire types. */
module PbBadInputs {
  import opened Coding
  import opened Keys
  import opened Pb
  import opened PbDecode
  import opened PbRoundTrip

  // ------------------------------------------------------------------ numbers

  /** Which 64-bit numbers fit a field, and as what. */
  lemma NarrowIs(l: LType, v: nat)
    requires Packable(l) && TypeOk(l) && v < LONG
    ensures l.BoolT? ==> Narrow(l, v) == Some(if v == 0 then 0 else 1)
    ensures l.UvarintT? ==> Narrow(l, v) == if v < Modulus(l.size) then Some(v) else None
    ensures l.SvarintT? ==>
              var n, half: int := if v % 2 == 0 then v / 2 else -((v + 1) / 2), Modulus(l.size) / 2;
              Narrow(l, v) == if -half <= n < half then Some(n) else None
    ensures l.VarintT? && l.size == 8 ==> Narrow(l, v) == Some(if v < LONG / 2 then v else v - LONG)
    ensures l.VarintT? && l.size == 4 ==>
              Narrow(l, v) == Some(if v % WORD < WORD / 2 then v % WORD else v % WORD - WORD)
    ensures l.VarintT? && l.size < 4 ==>
              var n, half: int := if v % WORD < WORD / 2 then v % WORD else v % WORD - WORD, Modulus(l.size) / 2;
              Narrow(l, v) == if -half <= n < half then Some(n) else None
  {
  }

  /** A number that does not fit its field fails the message. */
  lemma TooLargeFails(l: LType, v: nat, tail: Bytes)
    requires (l.UvarintT? || l.SvarintT? || l.VarintT?) && TypeOk(l) && v < LONG && Narrow(l, v).None?
    ensures DecodeNumber(l, Varint(v) + tail) == Failed
  {
    hide Varint, GetVarint64, Narrow;
    Varint64RoundTrip(v, tail);
  }

  lemma {:induction false} TruncatedIsNotSkipped(v: nat, k: nat)
    requires k < |Varint(v)|
    ensures SkipVarint(Varint(v)[..k]) == None
  {
    VarintIs(v);
    if v >= 128 && k > 0 {
      assert Varint(v)[..k][1..] == Varint(v / 128)[..k - 1];
      TruncatedIsNotSkipped(v / 128, k - 1);
    }
  }

  /** A number cut short is neither read nor skipped. */
  lemma TruncatedNumberFails(l: LType, n: int, k: nat)
    requires Packable(l) && TypeOk(l) && InRange(l, n) && k < |EncodeNumber(l, n)|
    ensures DecodeNumber(l, EncodeNumber(l, n)[..k]) == Failed
    ensures Skip(WireType(l), EncodeNumber(l, n)[..k]) == None
  {
    if !l.Fixed32T? && !l.Fixed64T? {
      var v := WireNumber(l, n);
      TruncatedVarintFails(v, k, 10);
      TruncatedIsNotSkipped(v, k);
      if l.BoolT? {
        VarintIs(v);
      }
    }
  }

  // ------------------------------------------------------------------ data of the wrong size

  /** Bytes longer than their space and strings without room for a terminator are refused; bytes of fixed length must
      have
      it, or be empty, which stands for zeros. */
  lemma WrongSizes(l: LType, v0: Value, entry: bool, b: Bytes, tail: Bytes)
    requires |b| < WORD
    ensures l.BytesT? && |b| > l.max ==> DecodeValue(l, v0, entry, Prefixed(b) + tail) == Failed
    ensures l.StringT? && |b| >= l.max ==> DecodeValue(l, v0, entry, Prefixed(b) + tail) == Failed
    ensures l.FixedBytesT? && |b| != l.length && b != [] ==> DecodeValue(l, v0, entry, Prefixed(b) + tail) == Failed
    ensures l.FixedBytesT? ==> DecodeValue(l, v0, entry, Prefixed([]) + tail) == Parsed(Blob(Zeros(l.length)), tail)
  {
    hide Substream, Varint;
    SubstreamReads(b, tail);
    SubstreamReads([], tail);
  }

  /** A length that leads beyond the stream fails. */
  lemma LongLengthFails(n: nat, rest: Bytes)
    requires |rest| < n < WORD
    ensures Substream(Varint(n) + rest) == Failed && Skip(STRING, Varint(n) + rest) == None
  {
    hide Varint, Varint32;
    Varint32Reads(n, rest);
  }

  /** More numbers than an array has space for, packed or one by one. */
  lemma {:induction false} PackedOverflowFails(l: LType, done: seq<Value>, vs: seq<Value>, max: nat)
    requires Packable(l) && TypeOk(l) && AllTyped(l, vs) && |done| <= max < |done| + |vs|
    ensures Unpack(l, done, max, Pack(l, vs)) == None
    decreases |vs|
  {
    hide Typed, TypeOk, EncodeNumber, DecodeNumber;
    NumbersAre(l, vs[0]);
    NumberReads(l, vs[0].n, Pack(l, vs[1..]));
    NumberTakes(l, vs[0].n);
    if |done| < max { PackedOverflowFails(l, done + [vs[0]], vs[1..], max); }
  }

  lemma FullArrayFails(f: Field, vs: seq<Value>, wireType: nat, input: Bytes)
    requires f.h.Repeated? && |vs| >= f.h.max && !(wireType == STRING && Packable(f.l))
    ensures DecodeSlot(f, Many(vs), wireType, input) == Failed
  {
    hide Packable;
  }

  /** Numbers of an array that come one by one, as older encoders write them, are taken like packed ones. */
  lemma UnpackedNumberJoins(f: Field, vs: seq<Value>, n: int, tail: Bytes)
    requires f.h.Repeated? && Packable(f.l) && TypeOk(f.l) && InRange(f.l, n) && |vs| < f.h.max
    ensures DecodeSlot(f, Many(vs), WireType(f.l), EncodeNumber(f.l, n) + tail) == Parsed(Many(vs + [Num(n)]), tail)
  {
    hide EncodeNumber, DecodeNumber;
    NumberReads(f.l, n, tail);
  }

  // ------------------------------------------------------------------ messages

  /** A zero where a tag is expected ends the message; wire types that do not exist end it in failure, unless the field
      is
      known. */
  lemma ZeroEndsMessage(fields: seq<Field>, m: Message, seen: set<nat>, x: Bytes)
    requires |m| == |fields|
    ensures DecodeLoop(fields, m, seen, [0] + x) == if AllSeen(fields, seen) then Some(m) else None
  {
    hide AllSeen;
    assert ([0] + x)[1..] == x;
  }

  /** In a message without fields the tag zero passes for a field: its data are read as a number of 32 bits, whatever
      the
      wire type says, and left out. */
  lemma TagZeroWithoutFields(wireType: nat, n: nat, x: Bytes)
    requires 1 <= wireType < 8 && n < WORD
    ensures DecodeLoop([], [], {}, [wireType] + Varint(n) + x) == DecodeLoop([], [], {}, x)
  {
    hide Varint, Varint32Rest;
    var input := [wireType] + Varint(n) + x;
    assert input[1..] == Varint(n) + x;
    Varint32Reads(n, x);
    assert ReadTag(input) == TagRead(0, wireType, Varint(n) + x);
  }

  lemma UnknownWireTypeFails(wireType: nat, x: Bytes)
    requires wireType == 3 || wireType == 4 || wireType == 6 || wireType == 7
    ensures Skip(wireType, x) == None
  {
  }

  /** The last occurrence of a field that is no message and no array wins. */
  lemma LastValueWins(f: Field, s: Slot, v: Value, w: Bytes, tail: Bytes)
    requires !f.h.Repeated? && !f.l.SubmessageT? && TypeOk(f.l) && Typed(f.l, v)
    requires EncodeValue(f.l, v) == Some(w) && |w| < WORD && Terminated(f.l, v)
    ensures DecodeSlot(f, s, WireType(f.l), w + tail) == Parsed(One(true, v), tail)
  {
    hide EncodeNumber, DecodeNumber, Substream, Varint, UntilZero;
    if Packable(f.l) {
      NumbersAre(f.l, v);
      NumberReads(f.l, v.n, tail);
    } else {
      SubstreamReads(v.b, tail);
      if f.l.StringT? { NoZeros(v.b); }
    }
  }

  /** A message field that occurs again is merged into what is there, unless it belongs to a oneof. */
  lemma MessagesMerge(f: Field, slots: Message, b: Bytes, tail: Bytes)
    requires f.l.SubmessageT? && !f.h.Repeated? && |slots| == |f.l.fields| && |b| < WORD
    ensures var start := if f.h.Oneof? then Defaults(f.l.fields) else slots;
            var r := DecodeLoop(f.l.fields, start, {}, b);
            DecodeSlot(f, One(true, Msg(slots)), STRING, Prefixed(b) + tail) ==
            if r.None? then Failed else Parsed(One(true, Msg(r.value)), tail)
  {
    hide DecodeLoop, Substream, Varint, Defaults;
    SubstreamReads(b, tail);
  }

  /** A field of a oneof displaces the others of it, and nothing else. */
  lemma OneofDisplaces(fields: seq<Field>, m: Message, i: nat, s: Slot, j: nat)
    requires |fields| == |m| && i < |m| && j < |m| && j != i
    ensures var r := Store(fields, m, i, s);
            && r[i] == s
            && (fields[i].h.Oneof? && fields[j].h.Oneof? && fields[i].h.group == fields[j].h.group ==>
                  r[j] == DefaultSlot(fields[j]) && (r[j].One? && !r[j].present))
            && (!(fields[i].h.Oneof? && fields[j].h.Oneof? && fields[i].h.group == fields[j].h.group) ==> r[j] == m[j])
  {
  }
}
