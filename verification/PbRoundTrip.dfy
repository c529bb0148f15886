/** Decoding what was encoded (pb_encode.c, pb_decode.c): exactly when it restores a message, and that it then
    restores all of it but the data of absent fields. */
module PbRoundTrip {
  import opened Coding
  import opened Keys
  import opened Pb
  import opened PbDecode
  import PbEncode

  // ------------------------------------------------------------------ what is restored, and when

  /** The field is written. */
  predicate Written(f: Field, s: Slot)
    requires SlotTyped(f, s)
  {
    match f.h
    case Required => true
    case Repeated(_) => s.vs != []
    case Singular => !IsDefault(f.l, s.v)
    case Optional => s.present
    case Oneof(_) => s.present
  }

  function NormalValue(l: LType, v: Value): Value
    requires Typed(l, v)
    decreases l, 0
  {
    if l.SubmessageT? then Msg(NormalMessage(l.fields, v.slots)) else v
  }

  function NormalAll(l: LType, vs: seq<Value>): (r: seq<Value>)
    requires AllTyped(l, vs)
    ensures |r| == |vs|
    decreases l, 1, |vs|
  {
    if vs == [] then [] else [NormalValue(l, vs[0])] + NormalAll(l, vs[1..])
  }

  function NormalSlot(f: Field, s: Slot): Slot
    requires SlotTyped(f, s)
    decreases f, 2
  {
    if f.h.Repeated? then Many(NormalAll(f.l, s.vs))
    else if Written(f, s) then One(true, NormalValue(f.l, s.v))
    else DefaultSlot(f)
  }

  /** The message with the data of unwritten fields reset. */
  function NormalMessage(fields: seq<Field>, m: Message): (r: Message)
    requires MessageTyped(fields, m)
    ensures |r| == |fields|
    decreases fields, 3
  {
    if fields == [] then [] else [NormalSlot(fields[0], m[0])] + NormalMessage(fields[1..], m[1..])
  }

  /** Strings leave room for their terminator. */
  predicate Terminated(l: LType, v: Value)
    requires Typed(l, v)
    decreases l, 0
  {
    match l
    case StringT(max) => |v.b| < max
    case SubmessageT(fields) => MessageTerminated(fields, v.slots)
    case _ => true
  }

  predicate AllTerminated(l: LType, vs: seq<Value>)
    requires AllTyped(l, vs)
    decreases l, 1, |vs|
  {
    vs == [] || (Terminated(l, vs[0]) && AllTerminated(l, vs[1..]))
  }

  predicate SlotTerminated(f: Field, s: Slot)
    requires SlotTyped(f, s)
    decreases f, 2
  {
    if f.h.Repeated? then AllTerminated(f.l, s.vs) else Written(f, s) ==> Terminated(f.l, s.v)
  }

  predicate MessageTerminated(fields: seq<Field>, m: Message)
    requires MessageTyped(fields, m)
    decreases fields, 3
  {
    fields == [] || (SlotTerminated(fields[0], m[0]) && MessageTerminated(fields[1..], m[1..]))
  }

  // ------------------------------------------------------------------ numbers

  lemma GathersBits(result: nat, byte: nat, low: nat, k: nat)
    requires k <= 4 && byte % 128 == low && result + low * Pow128(k) < WORD
    ensures Gathered(result, byte, k) == result + low * Pow128(k)
  {
    hide Pow128;
  }

  /** A byte that is not the last one. */
  lemma RestContinues(low: nat, rest: Bytes, result: nat, k: nat)
    requires 1 <= k <= 3 && low < 128 && result + low * Pow128(k) < WORD
    ensures Varint32Rest([128 + low] + rest, result, k) == Varint32Rest(rest, result + low * Pow128(k), k + 1)
  {
    hide Pow128, Gathered;
    GathersBits(result, 128 + low, low, k);
    var input := [128 + low] + rest;
    assert input[1..] == rest && input[0] == 128 + low;
  }

  lemma RestEnds(byte: nat, rest: Bytes, result: nat, k: nat)
    requires 1 <= k <= 4 && byte < 128 && (k == 4 ==> byte < 16) && result + byte * Pow128(k) < WORD
    ensures Varint32Rest([byte] + rest, result, k) == Parsed(result + byte * Pow128(k), rest)
  {
    hide Pow128, Gathered;
    GathersBits(result, byte, byte, k);
    var input := [byte] + rest;
    assert input[1..] == rest && input[0] == byte;
  }

  lemma {:induction false} Varint32RestReads(w: nat, tail: Bytes, result: nat, k: nat)
    requires 1 <= k <= 4 && result + w * Pow128(k) < WORD
    ensures Varint32Rest(Varint(w) + tail, result, k) == Parsed(result + w * Pow128(k), tail)
  {
    hide Varint, Varint32Rest, Pow128;
    VarintIs(w);
    if w < 128 {
      SmallAtEnd(w, k);
      RestEnds(w, tail, result, k);
    } else {
      Splits(w, k);
      assert Varint(w) + tail == [128 + w % 128] + (Varint(w / 128) + tail);
      RestContinues(w % 128, Varint(w / 128) + tail, result, k);
      Varint32RestReads(w / 128, tail, result + w % 128 * Pow128(k), k + 1);
    }
  }

  lemma VarintIs(w: nat)
    ensures Varint(w) == if w < 128 then [w] else [128 + w % 128] + Varint(w / 128)
  {
  }

  lemma PowersOf128()
    ensures Pow128(1) == 128 && Pow128(2) == 16384 && Pow128(3) == 2097152 && Pow128(4) == 268435456
  {
    assert Pow128(1) == 128 * Pow128(0) && Pow128(2) == 128 * Pow128(1) && Pow128(3) == 128 * Pow128(2);
    assert Pow128(4) == 128 * Pow128(3);
  }

  lemma SmallAtEnd(w: nat, k: nat)
    requires 1 <= k <= 4 && w * Pow128(k) < WORD
    ensures k == 4 ==> w < 16
  {
    PowersOf128();
  }

  lemma Splits(w: nat, k: nat)
    requires 1 <= k <= 4 && w >= 128 && w * Pow128(k) < WORD
    ensures k <= 3 && w * Pow128(k) == w % 128 * Pow128(k) + w / 128 * Pow128(k + 1)
  {
    PowersOf128();
    SmallAtEnd(w, k);
    assert Pow128(k + 1) == 128 * Pow128(k);
    SplitProduct(w, Pow128(k));
  }

  lemma SplitProduct(w: nat, p: nat)
    ensures w * p == w % 128 * p + w / 128 * (128 * p)
  {
    var low, high := w % 128, w / 128;
    calc {
      w * p;
      (low + 128 * high) * p;
      low * p + high * (128 * p);
    }
  }

  lemma Varint32Reads(v: nat, tail: Bytes)
    requires v < WORD
    ensures Varint32(Varint(v) + tail) == Parsed(v, tail)
  {
    hide Varint, Varint32Rest;
    VarintIs(v);
    var input := Varint(v) + tail;
    if v < 128 {
      assert input[1..] == tail;
    } else {
      PowersOf128();
      assert input[1..] == Varint(v / 128) + tail;
      Varint32RestReads(v / 128, tail, v % 128, 1);
    }
  }

  lemma NarrowsSigned(size: nat, n: int)
    requires SizeOk(size) && InRange(VarintT(size), n)
    ensures var w := WireNumber(VarintT(size), n);
            0 <= w < LONG && (if size == 8 then Signed64(w) else Signed32(w)) == n
  {
    if size != 8 {
      var w := WireNumber(VarintT(size), n);
      var h := WORD / 2;
      assert -h <= n < h;
      if n < 0 { assert w == (n + WORD) + (WORD - 1) * WORD; }
    }
  }

  lemma NarrowsZigzag(size: nat, n: int)
    requires SizeOk(size) && InRange(SvarintT(size), n)
    ensures var w := WireNumber(SvarintT(size), n); 0 <= w < LONG && Unzigzag(w) == n
  {
  }

  lemma NarrowsBack(l: LType, n: int)
    requires Packable(l) && TypeOk(l) && InRange(l, n) && !l.Fixed32T? && !l.Fixed64T?
    ensures 0 <= WireNumber(l, n) < LONG && Narrow(l, WireNumber(l, n)) == Some(n)
  {
    WireNumberFits(l, n);
    match l
    case VarintT(size) => { NarrowsSigned(size, n); hide WireNumber, Signed64, Signed32; }
    case SvarintT(size) => { NarrowsZigzag(size, n); hide WireNumber, Unzigzag; }
    case _ =>
  }

  lemma NumberReads(l: LType, n: int, tail: Bytes)
    requires Packable(l) && TypeOk(l) && InRange(l, n)
    ensures DecodeNumber(l, EncodeNumber(l, n) + tail) == Parsed(n, tail)
  {
    hide Varint, GetVarint64, Varint32, Narrow, Fixed32, Fixed64, Coding.DecodeFixed32, Coding.DecodeFixed64;
    if l.Fixed32T? {
      DecodesPrefix(Fixed32(n), tail);
      Fixed32RoundTrip(n);
      assert (Fixed32(n) + tail)[4..] == tail;
    } else if l.Fixed64T? {
      Fixed64RoundTrip(n, tail);
      assert (Fixed64(n) + tail)[8..] == tail;
    } else {
      NarrowsBack(l, n);
      var w: nat := WireNumber(l, n);
      if l.BoolT? { Varint32Reads(w, tail); } else { Varint64RoundTrip(w, tail); }
    }
  }

  lemma {:induction false} UnpackReads(l: LType, done: seq<Value>, vs: seq<Value>, max: nat)
    requires Packable(l) && TypeOk(l) && AllTyped(l, vs) && |done| + |vs| <= max
    ensures Unpack(l, done, max, Pack(l, vs)) == Some(done + vs)
    decreases |vs|
  {
    hide Typed, TypeOk, EncodeNumber, DecodeNumber;
    if vs == [] {
      assert done + vs == done;
    } else {
      NumbersAre(l, vs[0]);
      NumberReads(l, vs[0].n, Pack(l, vs[1..]));
      NumberTakes(l, vs[0].n);
      UnpackReads(l, done + [vs[0]], vs[1..], max);
      assert done + [vs[0]] + vs[1..] == done + vs;
    }
  }

  lemma NumberTakes(l: LType, n: int)
    requires Packable(l) && InRange(l, n)
    ensures EncodeNumber(l, n) != []
  {
    hide Varint;
  }

  // ------------------------------------------------------------------ tags and strings

  lemma SubstreamReads(b: Bytes, tail: Bytes)
    requires |b| < WORD
    ensures Substream(Prefixed(b) + tail) == Parsed(b, tail)
  {
    hide Varint, Varint32;
    assert Prefixed(b) + tail == Varint(|b|) + (b + tail);
    Varint32Reads(|b|, b + tail);
    assert (b + tail)[..|b|] == b && (b + tail)[|b|..] == tail;
  }

  lemma TagReads(wireType: nat, tag: nat, rest: Bytes)
    requires 0 < tag < 0x2000_0000 && wireType < 8
    ensures ReadTag(Tag(wireType, tag) + rest) == TagRead(tag, wireType, rest) && Tag(wireType, tag) != []
  {
    hide Varint, Varint32;
    Varint32Reads(tag * 8 + wireType, rest);
  }

  lemma {:induction false} NoZeros(b: Bytes)
    requires forall i :: 0 <= i < |b| ==> b[i] != 0
    ensures UntilZero(b) == b
  {
    if b != [] {
      NoZeros(b[1..]);
      assert b == [b[0]] + b[1..];
    }
  }

  // ------------------------------------------------------------------ one value

  function ValueOutcome(l: LType, v: Value, tail: Bytes): Parsed<Value>
    requires Typed(l, v)
  {
    if Terminated(l, v) then Parsed(NormalValue(l, v), tail) else Failed
  }

  /** The data of a field is restored, unless a string in it lacks its terminator. */
  lemma {:induction false} ValueReads(l: LType, v: Value, entry: bool, w: Bytes, tail: Bytes)
    requires TypeOk(l) && Typed(l, v) && EncodeValue(l, v) == Some(w) && |w| < WORD
    ensures DecodeValue(l, DefaultValue(l), entry, w + tail) == ValueOutcome(l, v, tail)
    decreases l, 0
  {
    if Packable(l) {
      NumberValueReads(l, v, entry, w, tail);
    } else if l.SubmessageT? {
      hide MessageTyped, EncodeMessage, FieldsOk, DecodeLoop, Defaults, NormalMessage, MessageTerminated, Varint;
      var b := EncodeMessage(l.fields, v.slots).value;
      MessageReads(l.fields, v.slots, b);
      SubmessageReads(l, v, entry, b, tail);
    } else {
      BlobReads(l, v, entry, w, tail);
    }
  }

  lemma NumberValueReads(l: LType, v: Value, entry: bool, w: Bytes, tail: Bytes)
    requires Packable(l) && TypeOk(l) && Typed(l, v) && EncodeValue(l, v) == Some(w)
    ensures DecodeValue(l, DefaultValue(l), entry, w + tail) == ValueOutcome(l, v, tail)
  {
    hide EncodeNumber, DecodeNumber;
    NumbersAre(l, v);
    NumberReads(l, v.n, tail);
  }

  lemma BlobReads(l: LType, v: Value, entry: bool, w: Bytes, tail: Bytes)
    requires l.BytesT? || l.StringT? || l.FixedBytesT?
    requires TypeOk(l) && Typed(l, v) && EncodeValue(l, v) == Some(w) && |w| < WORD
    ensures DecodeValue(l, DefaultValue(l), entry, w + tail) == ValueOutcome(l, v, tail)
  {
    hide Substream, Varint, UntilZero;
    SubstreamReads(v.b, tail);
    if l.StringT? { NoZeros(v.b); }
  }

  lemma SubmessageReads(l: LType, v: Value, entry: bool, b: Bytes, tail: Bytes)
    requires l.SubmessageT? && Typed(l, v) && |b| < WORD
    requires DecodeLoop(l.fields, Defaults(l.fields), {}, b) == Outcome(l.fields, v.slots)
    ensures DecodeValue(l, DefaultValue(l), entry, Prefixed(b) + tail) == ValueOutcome(l, v, tail)
  {
    hide Substream, Varint, MessageTyped, DecodeLoop, Defaults, NormalMessage, MessageTerminated;
    SubstreamReads(b, tail);
  }

  // ------------------------------------------------------------------ one field of a message

  /** The struct once the first `i` fields are decoded. */
  function Restored(fields: seq<Field>, m: Message, i: nat): (r: Message)
    requires MessageTyped(fields, m) && i <= |fields|
    ensures |r| == |fields|
  {
    NormalMessage(fields, m)[..i] + Defaults(fields)[i..]
  }

  function SeenBefore(fields: seq<Field>, i: nat): set<nat>
    requires i <= |fields|
  {
    set j: nat | j < i && fields[j].h.Required?
  }

  lemma {:induction false} DefaultsAt(fields: seq<Field>, i: nat)
    requires i < |fields|
    ensures Defaults(fields)[i] == DefaultSlot(fields[i])
  {
    if i > 0 { DefaultsAt(fields[1..], i - 1); }
  }

  lemma {:induction false} NormalAt(fields: seq<Field>, m: Message, i: nat)
    requires MessageTyped(fields, m) && i < |fields|
    ensures |m| == |fields| && SlotTyped(fields[i], m[i]) && NormalMessage(fields, m)[i] == NormalSlot(fields[i], m[i])
  {
    hide SlotTyped, NormalSlot;
    if i > 0 { NormalAt(fields[1..], m[1..], i - 1); }
  }

  lemma {:induction false} TagsDiffer(fields: seq<Field>, i: nat, j: nat)
    requires FieldsOk(fields) && i < j < |fields|
    ensures fields[i].tag != fields[j].tag
  {
    hide FieldOk;
    if i > 0 { TagsDiffer(fields[1..], i - 1, j - 1); }
  }

  lemma FindsField(fields: seq<Field>, i: nat)
    requires FieldsOk(fields) && i < |fields|
    ensures Find(fields, fields[i].tag) == i
  {
    hide FieldsOk, Find;
    var k := Find(fields, fields[i].tag);
    if k < i { TagsDiffer(fields, k, i); }
  }

  /** At most one field of a oneof is present. */
  lemma {:induction false} OnePresent(fields: seq<Field>, m: Message, i: nat, j: nat)
    requires MessageTyped(fields, m) && i < j < |fields| == |m|
    requires fields[i].h.Oneof? && fields[j].h == fields[i].h
    ensures m[i].One? && m[j].One? && !(m[i].present && m[j].present)
  {
    hide SlotTyped;
    NormalAt(fields, m, i);
    NormalAt(fields, m, j);
    OneofsAreOne(fields[i], m[i]);
    OneofsAreOne(fields[j], m[j]);
    if i > 0 { OnePresent(fields[1..], m[1..], i - 1, j - 1); }
  }

  lemma OneofsAreOne(f: Field, s: Slot)
    requires SlotTyped(f, s) && f.h.Oneof?
    ensures s.One?
  {
  }

  /** A field of a oneof that is not present is at its default. */
  lemma AbsentIsDefault(f: Field, s: Slot)
    requires SlotTyped(f, s) && !Written(f, s)
    ensures NormalSlot(f, s) == DefaultSlot(f)
  {
  }

  /** Storing field `i` leaves the fields before and after it. */
  lemma StoreRestores(fields: seq<Field>, m: Message, i: nat)
    requires MessageTyped(fields, m) && i < |fields| == |m| && SlotTyped(fields[i], m[i]) && Written(fields[i], m[i])
    ensures Store(fields, Restored(fields, m, i), i, NormalSlot(fields[i], m[i])) == Restored(fields, m, i + 1)
  {
    hide MessageTyped, SlotTyped, Written, NormalSlot, NormalMessage, Defaults, DefaultSlot;
    var a, b := Restored(fields, m, i), Restored(fields, m, i + 1);
    var s := Store(fields, a, i, NormalSlot(fields[i], m[i]));
    NormalAt(fields, m, i);
    forall j | 0 <= j < |fields| ensures s[j] == b[j] {
      if j != i && fields[i].h.Oneof? && fields[j].h == fields[i].h { OtherIsDefault(fields, m, i, j); }
    }
    assert s == b;
  }

  lemma OtherIsDefault(fields: seq<Field>, m: Message, i: nat, j: nat)
    requires MessageTyped(fields, m) && i < |fields| == |m| && SlotTyped(fields[i], m[i]) && Written(fields[i], m[i])
    requires j < |fields| && j != i && fields[i].h.Oneof? && fields[j].h == fields[i].h
    ensures Restored(fields, m, i + 1)[j] == DefaultSlot(fields[j])
  {
    hide MessageTyped, SlotTyped, NormalSlot, NormalMessage, Defaults, DefaultSlot;
    if i < j {
      DefaultsAt(fields, j);
    } else {
      OnePresent(fields, m, j, i);
      NormalAt(fields, m, j);
      AbsentIsDefault(fields[j], m[j]);
    }
  }

  lemma UnwrittenRestored(fields: seq<Field>, m: Message, i: nat)
    requires MessageTyped(fields, m) && i < |fields| == |m| && SlotTyped(fields[i], m[i]) && !Written(fields[i], m[i])
    ensures Restored(fields, m, i) == Restored(fields, m, i + 1)
  {
    hide MessageTyped, SlotTyped, Written, NormalSlot, NormalMessage, Defaults, DefaultSlot;
    NormalAt(fields, m, i);
    DefaultsAt(fields, i);
    AbsentIsDefault(fields[i], m[i]);
  }

  /** One round of the decoding loop at a known tag. */
  lemma KnownTagReads(fields: seq<Field>, m: Message, seen: set<nat>, i: nat, wireType: nat, input: Bytes)
    requires i < |fields| == |m| && FieldsOk(fields) && FieldOk(fields[i]) && wireType < 8
    ensures DecodeLoop(fields, m, seen, Tag(wireType, fields[i].tag) + input) ==
            var p := DecodeSlot(fields[i], m[i], wireType, input);
            if p.Failed? then None
            else DecodeLoop(fields, Store(fields, m, i, p.value), if fields[i].h.Required? then seen + {i} else seen,
              p.rest)
  {
    hide FieldsOk, Tag, ReadTag, Find, DecodeSlot, Store, TypeOk, AllSeen;
    TagReads(wireType, fields[i].tag, input);
    FindsField(fields, i);
  }

  /** The outcome of decoding a whole message. */
  function Outcome(fields: seq<Field>, m: Message): Option<Message>
    requires MessageTyped(fields, m)
  {
    if MessageTerminated(fields, m) then Some(NormalMessage(fields, m)) else None
  }

  // ------------------------------------------------------------------ fields

  lemma {:induction false} SingleReads(f: Field, v: Value, w: Bytes, tail: Bytes)
    requires !f.h.Repeated? && TypeOk(f.l) && Typed(f.l, v) && EncodeValue(f.l, v) == Some(w) && |w| < WORD
    ensures DecodeSlot(f, DefaultSlot(f), WireType(f.l), w + tail) ==
            if Terminated(f.l, v) then Parsed(One(true, NormalValue(f.l, v)), tail) else Failed
    decreases f, 1
  {
    hide Typed, TypeOk, EncodeValue, DecodeValue, DefaultValue, Terminated, NormalValue, Packable;
    ValueReads(f.l, v, false, w, tail);
  }

  lemma {:induction false} EntryReads(f: Field, done: seq<Value>, v: Value, w: Bytes, tail: Bytes)
    requires f.h.Repeated? && !Packable(f.l) && |done| < f.h.max
    requires TypeOk(f.l) && Typed(f.l, v) && EncodeValue(f.l, v) == Some(w) && |w| < WORD
    ensures DecodeSlot(f, Many(done), WireType(f.l), w + tail) ==
            if Terminated(f.l, v) then Parsed(Many(done + [NormalValue(f.l, v)]), tail) else Failed
    decreases f, 1
  {
    hide Typed, TypeOk, EncodeValue, DecodeValue, DefaultValue, Terminated, NormalValue, Packable;
    ValueReads(f.l, v, true, w, tail);
  }

  lemma PackedReads(f: Field, vs: seq<Value>, tail: Bytes)
    requires f.h.Repeated? && Packable(f.l) && TypeOk(f.l) && AllTyped(f.l, vs) && |vs| <= f.h.max
    requires |Prefixed(Pack(f.l, vs))| < WORD
    ensures DecodeSlot(f, Many([]), STRING, Prefixed(Pack(f.l, vs)) + tail) == Parsed(Many(vs), tail)
  {
    hide TypeOk, AllTyped, Pack, Unpack, Varint, Packable, Substream;
    SubstreamReads(Pack(f.l, vs), tail);
    UnpackReads(f.l, [], vs, f.h.max);
    assert [] + vs == vs;
  }

  lemma {:induction false} NumbersAreNormal(l: LType, vs: seq<Value>)
    requires Packable(l) && AllTyped(l, vs)
    ensures NormalAll(l, vs) == vs && AllTerminated(l, vs)
  {
    hide Typed;
    if vs != [] { NumbersAreNormal(l, vs[1..]); }
  }

  /** The entries of an array, one round each. */
  lemma {:induction false} EntriesRead(
      fields: seq<Field>, a: Message, seen: set<nat>, i: nat, done: seq<Value>, vs: seq<Value>, w: Bytes, rest: Bytes)
    requires i < |fields| == |a| && FieldsOk(fields) && FieldOk(fields[i]) && fields[i].h.Repeated? &&
             !Packable(fields[i].l)
    requires AllTyped(fields[i].l, vs) && |done| + |vs| <= fields[i].h.max
    requires EncodeEntries(fields[i], vs) == Some(w) && |w| < WORD
    ensures DecodeLoop(fields, a[i := Many(done)], seen, w + rest) ==
            if AllTerminated(fields[i].l, vs)
            then DecodeLoop(fields, a[i := Many(done + NormalAll(fields[i].l, vs))], seen, rest) else None
    decreases fields[i], 2, |vs|
  {
    hide FieldsOk, Typed, TypeOk, EncodeValue, DecodeSlot, DecodeLoop, Terminated, NormalValue, Packable, Store, Tag,
         WireType;
    var f := fields[i];
    if vs == [] {
      assert w + rest == rest && done + NormalAll(f.l, vs) == done;
    } else {
      var e, later := EncodeValue(f.l, vs[0]).value, EncodeEntries(f, vs[1..]).value;
      var x := NormalValue(f.l, vs[0]);
      assert w + rest == Tag(WireType(f.l), f.tag) + (e + (later + rest));
      WireTypeFits(f.l);
      KnownTagReads(fields, a[i := Many(done)], seen, i, WireType(f.l), e + (later + rest));
      EntryReads(f, done, vs[0], e, later + rest);
      StoresEntry(fields, a, i, done, done + [x]);
      EntriesRead(fields, a, seen, i, done + [x], vs[1..], later, rest);
      assert done + [x] + NormalAll(f.l, vs[1..]) == done + NormalAll(f.l, vs);
    }
  }

  lemma WireTypeFits(l: LType)
    ensures WireType(l) < 8
  {
  }

  lemma StoresEntry(fields: seq<Field>, a: Message, i: nat, done: seq<Value>, more: seq<Value>)
    requires i < |fields| == |a| && fields[i].h.Repeated?
    ensures Store(fields, a[i := Many(done)], i, Many(more)) == a[i := Many(more)]
  {
  }

  function SeenToo(fields: seq<Field>, seen: set<nat>, i: nat): set<nat>
    requires i < |fields|
  {
    if fields[i].h.Required? then seen + {i} else seen
  }

  /** What decoding a written field does to the struct. */
  lemma {:induction false} SlotReads(fields: seq<Field>, m: Message, seen: set<nat>, i: nat, w: Bytes, rest: Bytes)
    requires FieldsOk(fields) && MessageTyped(fields, m) && i < |fields| == |m|
    requires FieldOk(fields[i]) && SlotTyped(fields[i], m[i]) && Written(fields[i], m[i])
    requires EncodeSlot(fields[i], m[i]) == Some(w) && |w| < WORD
    ensures DecodeLoop(fields, Restored(fields, m, i), seen, w + rest) ==
            if SlotTerminated(fields[i], m[i])
            then DecodeLoop(fields, Restored(fields, m, i + 1), SeenToo(fields, seen, i), rest) else None
    decreases fields, 3
  {
    hide FieldsOk, MessageTyped, Typed, TypeOk, AllTyped, IsDefault, DecodeLoop, DecodeSlot, EncodeValue,
         EncodeEntries, Pack;
    hide Packable, Store, Tag, WireType, Restored, DefaultSlot, Terminated, AllTerminated, Varint,
         NormalValue, NormalAll;
    var f, s := fields[i], m[i];
    StoreRestores(fields, m, i);
    RestoredAt(fields, m, i);
    if !f.h.Repeated? {
      var e := EncodeValue(f.l, s.v).value;
      assert w + rest == Tag(WireType(f.l), f.tag) + (e + rest);
      WireTypeFits(f.l);
      KnownTagReads(fields, Restored(fields, m, i), seen, i, WireType(f.l), e + rest);
      SingleReads(f, s.v, e, rest);
    } else if Packable(f.l) {
      var e := Prefixed(Pack(f.l, s.vs));
      assert w + rest == Tag(STRING, f.tag) + (e + rest);
      KnownTagReads(fields, Restored(fields, m, i), seen, i, STRING, e + rest);
      PackedReads(f, s.vs, rest);
      NumbersAreNormal(f.l, s.vs);
    } else {
      EntriesRead(fields, Restored(fields, m, i), seen, i, [], s.vs, w, rest);
      assert [] + NormalAll(f.l, s.vs) == NormalAll(f.l, s.vs);
      RestoredSteps(fields, m, i);
    }
  }

  lemma RestoredAt(fields: seq<Field>, m: Message, i: nat)
    requires MessageTyped(fields, m) && i < |fields|
    ensures Restored(fields, m, i)[i] == DefaultSlot(fields[i])
    ensures fields[i].h.Repeated? ==>
            Restored(fields, m, i)[i] == Many([]) && Restored(fields, m, i)[i := Many([])] == Restored(fields, m, i)
  {
    hide MessageTyped, NormalMessage, Defaults;
    DefaultsAt(fields, i);
  }

  lemma RestoredSteps(fields: seq<Field>, m: Message, i: nat)
    requires MessageTyped(fields, m) && i < |fields| == |m| && SlotTyped(fields[i], m[i])
    ensures Restored(fields, m, i)[i := NormalSlot(fields[i], m[i])] == Restored(fields, m, i + 1)
  {
    hide MessageTyped, SlotTyped, NormalMessage, Defaults, NormalSlot;
    NormalAt(fields, m, i);
  }

  lemma SeenGrows(fields: seq<Field>, i: nat)
    requires i < |fields|
    ensures SeenBefore(fields, i + 1) ==
            if fields[i].h.Required? then SeenBefore(fields, i) + {i} else SeenBefore(fields, i)
  {
  }

  // ------------------------------------------------------------------ messages

  lemma UnwrittenIsNothing(f: Field, s: Slot)
    requires SlotTyped(f, s) && !Written(f, s)
    ensures EncodeSlot(f, s) == Some([]) && SlotTerminated(f, s)
  {
    hide IsDefault, Tagged, Pack, EncodeEntries;
  }

  lemma {:induction false} TerminatedStep(fields: seq<Field>, m: Message, i: nat)
    requires MessageTyped(fields, m) && FieldsOk(fields) && i < |fields|
    ensures |m| == |fields| && MessageTyped(fields[i..], m[i..]) && MessageTyped(fields[i + 1..], m[i + 1..]) &&
            SlotTyped(fields[i], m[i])
    ensures MessageTerminated(fields[i..], m[i..]) <==>
            SlotTerminated(fields[i], m[i]) && MessageTerminated(fields[i + 1..], m[i + 1..])
  {
    hide SlotTyped, SlotTerminated, FieldsOk;
    PbEncode.MessageStep(fields, m, i);
    assert fields[i..][1..] == fields[i + 1..] && m[i..][1..] == m[i + 1..];
  }

  /** Decoding the rest of a message once the first `i` fields are decoded. */
  lemma {:induction false} FieldsRead(fields: seq<Field>, m: Message, i: nat, w: Bytes)
    requires FieldsOk(fields) && MessageTyped(fields, m) && i <= |fields| == |m| && MessageTyped(fields[i..], m[i..])
    requires EncodeMessage(fields[i..], m[i..]) == Some(w) && |w| < WORD
    ensures DecodeLoop(fields, Restored(fields, m, i), SeenBefore(fields, i), w) ==
            if MessageTerminated(fields[i..], m[i..]) then Some(NormalMessage(fields, m)) else None
    decreases fields, 4, |fields| - i
  {
    hide FieldsOk, MessageTyped, EncodeMessage, EncodeSlot, SlotTyped, FieldOk, DecodeLoop, MessageTerminated;
    hide SlotTerminated, Written, NormalMessage, Restored, SeenBefore, Append;
    if i == |fields| {
      assert fields[i..] == [] && m[i..] == [];
      PbEncode.NoFields();
      AllRead(fields, m);
    } else {
      PbEncode.MessageStep(fields, m, i);
      TerminatedStep(fields, m, i);
      AppendParts(EncodeSlot(fields[i], m[i]), EncodeMessage(fields[i + 1..], m[i + 1..]), w);
      var e, later := EncodeSlot(fields[i], m[i]).value, EncodeMessage(fields[i + 1..], m[i + 1..]).value;
      FieldsRead(fields, m, i + 1, later);
      if Written(fields[i], m[i]) {
        SeenGrows(fields, i);
        SlotReads(fields, m, SeenBefore(fields, i), i, e, later);
      } else {
        UnwrittenIsNothing(fields[i], m[i]);
        UnwrittenRestored(fields, m, i);
        UnwrittenNotSeen(fields, m, i);
        assert e + later == later;
      }
    }
  }

  lemma AppendParts(a: Option<Bytes>, b: Option<Bytes>, w: Bytes)
    requires Append(a, b) == Some(w)
    ensures a.Some? && b.Some? && w == a.value + b.value
  {
  }

  lemma UnwrittenNotSeen(fields: seq<Field>, m: Message, i: nat)
    requires i < |fields| == |m| && SlotTyped(fields[i], m[i]) && !Written(fields[i], m[i])
    ensures SeenBefore(fields, i) == SeenBefore(fields, i + 1)
  {
    hide SlotTyped;
    SeenGrows(fields, i);
  }

  lemma AllRead(fields: seq<Field>, m: Message)
    requires MessageTyped(fields, m)
    ensures DecodeLoop(fields, Restored(fields, m, |fields|), SeenBefore(fields, |fields|), []) ==
            Some(NormalMessage(fields, m))
    ensures MessageTyped([], []) && MessageTerminated([], [])
  {
    hide NormalMessage, Defaults;
    assert Restored(fields, m, |fields|) == NormalMessage(fields, m);
  }

  lemma {:induction false} MessageReads(fields: seq<Field>, m: Message, w: Bytes)
    requires FieldsOk(fields) && MessageTyped(fields, m) && EncodeMessage(fields, m) == Some(w) && |w| < WORD
    ensures DecodeLoop(fields, Defaults(fields), {}, w) == Outcome(fields, m)
    decreases fields, 5
  {
    hide FieldsOk, MessageTyped, EncodeMessage, DecodeLoop, MessageTerminated, NormalMessage, Defaults;
    PbEncode.MessageStep(fields, m, 0);
    assert fields[0..] == fields && m[0..] == m;
    assert Restored(fields, m, 0) == Defaults(fields);
    assert SeenBefore(fields, 0) == {};
    FieldsRead(fields, m, 0, w);
  }
}