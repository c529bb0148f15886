/** The encoder (pb_encode.c): one pass over a message either writes it or only counts its bytes. */
module PbEncode {
  import opened Coding
  import opened Keys
  import opened Pb

  /** What a stream has received. */
  datatype Out = Out(buffer: Bytes, written: nat)

  /** What a step did to a stream: all of `w`, counted or written, if there is such a wire form and it
      fits; otherwise it failed. */
  predicate Took(sizing: bool, maxSize: nat, before: Out, after: Out, ok: bool, w: Option<Bytes>) {
    && (!sizing ==> after.written <= maxSize)
    && (w.None? ==> !ok)
    && (w.Some? ==>
          && (sizing ==> ok)
          && (!sizing ==> (ok <==> before.written + |w.value| <= maxSize))
          && (ok ==> after == Out(before.buffer + (if sizing then [] else w.value), before.written + |w.value|)))
  }

  /** A second step is taken when the first one succeeds. */
  lemma TookBoth(sizing: bool, maxSize: nat, a: Out, b: Out, c: Out, ok: bool, v: Option<Bytes>, also: bool,
                 w: Option<Bytes>)
    requires Took(sizing, maxSize, a, b, ok, v) && (ok ==> Took(sizing, maxSize, b, c, also, w))
    ensures Took(sizing, maxSize, a, if ok then c else b, ok && also, Append(v, w))
  {
    if v.Some? && w.Some? {
      assert a.buffer + v.value + w.value == a.buffer + (v.value + w.value);
      assert a.buffer + [] + [] == a.buffer + [];
    }
  }

  lemma VarintCases(w: nat)
    ensures w < 128 ==> Varint(w) == [w]
    ensures w >= 128 ==> Varint(w) == [w % 128 + 128] + Varint(w / 128)
  {
  }

  /** The loop of pb_encode_varint: every byte gets the top bit, and the last one loses it again. */
  method VarintBuffer(v: nat) returns (b: Bytes)
    requires v > 0
    ensures b == Varint(v)
  {
    hide Varint;
    var w: nat := v;
    b := [];
    ghost var before: Bytes, last: Byte := [], 0;
    while w > 0
      invariant w > 0 ==> b + Varint(w) == Varint(v)
      invariant w == 0 ==> last < 128 && b == before + [last + 128] && before + [last] == Varint(v)
    {
      VarintCases(w);
      before, last := b, w % 128;
      if w >= 128 { assert b + ([w % 128 + 128] + Varint(w / 128)) == (b + [w % 128 + 128]) + Varint(w / 128); }
      b := b + [w % 128 + 128];
      w := w / 128;
    }
    b := b[..|b| - 1] + [b[|b| - 1] - 128];
  }

  /** An output stream; without a callback it only counts. */
  class OStream {
    const sizing: bool
    const maxSize: nat
    var buffer: Bytes
    var written: nat

    function State(): Out
      reads this
    {
      Out(buffer, written)
    }

    ghost predicate Valid()
      reads this
    {
      !sizing ==> written <= maxSize
    }

    constructor (sizing: bool, buffer: Bytes, maxSize: nat)
      ensures Valid() && this.sizing == sizing && this.maxSize == maxSize && State() == Out(buffer, 0)
    {
      this.sizing, this.maxSize, this.buffer, written := sizing, maxSize, buffer, 0;
    }

    /** pb_write. */
    method Write(data: Bytes) returns (ok: bool)
      requires Valid()
      modifies this
      ensures Valid() && Took(sizing, maxSize, old(State()), State(), ok, Some(data))
    {
      assert buffer + [] == buffer;
      if |data| > 0 && !sizing {
        if written + |data| > maxSize {
          return false;
        }
        buffer := buffer + data;
      }
      written := written + |data|;
      return true;
    }

    /** pb_write without data, when sizing: `w` is what would be written. */
    method Count(n: nat, ghost w: Bytes) returns (ok: bool)
      requires Valid() && sizing && |w| == n
      modifies this
      ensures Valid() && Took(sizing, maxSize, old(State()), State(), ok, Some(w))
    {
      assert buffer + [] == buffer;
      written := written + n;
      return true;
    }

    /** pb_encode_varint. */
    method EncodeVarint(v: nat) returns (ok: bool)
      requires Valid()
      modifies this
      ensures Valid() && Took(sizing, maxSize, old(State()), State(), ok, Some(Varint(v)))
    {
      hide Took;
      if v < 128 {
        VarintCases(v);
        ok := Write([v]);
        return;
      }
      var b := VarintBuffer(v);
      ok := Write(b);
    }

    method EncodeString(b: Bytes) returns (ok: bool)
      requires Valid()
      modifies this
      ensures Valid() && Took(sizing, maxSize, old(State()), State(), ok, Some(Prefixed(b)))
    {
      hide Varint, Took;
      ghost var s0 := State();
      ok := EncodeVarint(|b|);
      ghost var s1, first := State(), ok;
      if ok {
        ok := Write(b);
      }
      TookBoth(sizing, maxSize, s0, s1, State(), first, Some(Varint(|b|)), ok, Some(b));
    }

    method EncodeTag(wireType: nat, tag: nat) returns (ok: bool)
      requires Valid() && tag < 0x2000_0000 && wireType < 8
      modifies this
      ensures Valid() && Took(sizing, maxSize, old(State()), State(), ok, Some(Tag(wireType, tag)))
    {
      ok := EncodeVarint(tag * 8 + wireType);
    }

    method EncodeNum(l: LType, n: int) returns (ok: bool)
      requires Valid() && Packable(l) && InRange(l, n)
      modifies this
      ensures Valid() && Took(sizing, maxSize, old(State()), State(), ok, Some(EncodeNumber(l, n)))
    {
      hide Varint, Took, Fixed32, Fixed64;
      WireNumberFits(l, n);
      if l.Fixed32T? {
        ok := Write(Fixed32(n));
      } else if l.Fixed64T? {
        ok := Write(Fixed64(n));
      } else {
        ok := EncodeVarint(WireNumber(l, n));
      }
    }
  }

  // ------------------------------------------------------------------ values, fields and messages

  /** pb_encode_submessage: one pass to find the size, one to write. */
  method EncodeSubmessage(s: OStream, fields: seq<Field>, m: Message) returns (ok: bool)
    requires s.Valid() && MessageTyped(fields, m) && FieldsOk(fields)
    modifies s
    ensures s.Valid()
    ensures Took(s.sizing, s.maxSize, old(s.State()), s.State(), ok, EncodeValue(SubmessageT(fields), Msg(m)))
    decreases fields, 6
  {
    hide Varint, Took, MessageTyped, FieldsOk, EncodeMessage;
    ghost var w := EncodeMessage(fields, m);
    var sizer := new OStream(true, [], 0);
    ok := Encode(sizer, fields, m);
    SizeIs(sizer.State(), ok, w);
    if !ok {
      NoWireForm(s.sizing, s.maxSize, s.State());
      return;
    }
    var size := sizer.written;
    ghost var s0 := s.State();
    ok := s.EncodeVarint(size);
    ghost var s1, first := s.State(), ok;
    if ok {
      if s.sizing {
        // Just sizing.
        ok := s.Count(size, w.value);
      } else {
        ok := EncodeWithin(s, fields, m, size);
      }
    }
    TookBoth(s.sizing, s.maxSize, s0, s1, s.State(), first, Some(Varint(size)), ok, w);
  }

  /** The writing pass, through a substream that has just the space found. */
  method EncodeWithin(s: OStream, fields: seq<Field>, m: Message, size: nat) returns (ok: bool)
    requires s.Valid() && !s.sizing && MessageTyped(fields, m) && FieldsOk(fields)
    requires EncodeMessage(fields, m).Some? && size == |EncodeMessage(fields, m).value|
    modifies s
    ensures s.Valid() && Took(false, s.maxSize, old(s.State()), s.State(), ok, EncodeMessage(fields, m))
    decreases fields, 5
  {
    hide MessageTyped, FieldsOk, EncodeMessage;
    if s.written + size > s.maxSize {
      return false;
    }
    var sub := new OStream(false, s.buffer, size);
    var status := Encode(sub, fields, m);
    s.written := s.written + sub.written;
    s.buffer := sub.buffer;
    ok := sub.written == size && status;
  }

  lemma SizeIs(after: Out, ok: bool, w: Option<Bytes>)
    requires Took(true, 0, Out([], 0), after, ok, w)
    ensures ok == w.Some? && (ok ==> after.written == |w.value|)
  {
  }

  lemma NoWireForm(sizing: bool, maxSize: nat, s: Out)
    requires !sizing ==> s.written <= maxSize
    ensures Took(sizing, maxSize, s, s, false, None)
  {
  }

  method EncodeData(s: OStream, l: LType, v: Value) returns (ok: bool)
    requires s.Valid() && Typed(l, v) && TypeOk(l)
    modifies s
    ensures s.Valid() && Took(s.sizing, s.maxSize, old(s.State()), s.State(), ok, EncodeValue(l, v))
    decreases l, 0
  {
    hide Took, EncodeNumber, MessageTyped, FieldsOk;
    NoWireForm(s.sizing, s.maxSize, s.State());
    match l
    case BytesT(max) =>
      if |v.b| > max {
        return false;
      }
      ok := s.EncodeString(v.b);
    case StringT(_) => ok := s.EncodeString(v.b);
    case FixedBytesT(_) => ok := s.EncodeString(v.b);
    case SubmessageT(fields) => ok := EncodeSubmessage(s, fields, v.slots);
    case _ => ok := s.EncodeNum(l, v.n);
  }

  method EncodeTagged(s: OStream, f: Field, v: Value) returns (ok: bool)
    requires s.Valid() && Typed(f.l, v) && FieldOk(f)
    modifies s
    ensures s.Valid() && Took(s.sizing, s.maxSize, old(s.State()), s.State(), ok, Tagged(f, v))
    decreases f, 1
  {
    hide Took, Typed, TypeOk, EncodeValue, Tag;
    ghost var s0 := s.State();
    ok := s.EncodeTag(WireType(f.l), f.tag);
    ghost var s1, first := s.State(), ok;
    if ok {
      ok := EncodeData(s, f.l, v);
    }
    TookBoth(s.sizing, s.maxSize, s0, s1, s.State(), first, Some(Tag(WireType(f.l), f.tag)), ok, EncodeValue(f.l, v));
  }

  // ------------------------------------------------------------------ arrays

  lemma AllTypedFrom(l: LType, vs: seq<Value>, i: nat)
    requires AllTyped(l, vs) && i <= |vs|
    ensures AllTyped(l, vs[i..]) && (i < |vs| ==> Typed(l, vs[i]))
  {
    if i > 0 {
      AllTypedFrom(l, vs[1..], i - 1);
      assert vs[1..][i - 1..] == vs[i..];
    } else {
      assert vs[0..] == vs;
    }
  }

  /** Rounds of `p` and what is still to come. */
  lemma AppendRegroups(p: Option<Bytes>, a: Option<Bytes>, b: Option<Bytes>)
    ensures Append(Append(p, a), b) == Append(p, Append(a, b)) && Append(Some([]), a) == a && Append(a, Some([])) == a
  {
    if p.Some? && a.Some? && b.Some? {
      assert p.value + a.value + b.value == p.value + (a.value + b.value);
    }
    if a.Some? { assert [] + a.value == a.value && a.value + [] == a.value; }
  }

  lemma NothingTaken(sizing: bool, maxSize: nat, s: Out)
    requires !sizing ==> s.written <= maxSize
    ensures Took(sizing, maxSize, s, s, true, Some([]))
  {
    assert s.buffer + [] == s.buffer;
  }

  lemma PackStep(l: LType, vs: seq<Value>, i: nat)
    requires Packable(l) && AllTyped(l, vs) && i < |vs|
    ensures AllTyped(l, vs[i..]) && AllTyped(l, vs[i + 1..]) && Typed(l, vs[i]) && vs[i].Num? && InRange(l, vs[i].n)
    ensures Pack(l, vs[i..]) == EncodeNumber(l, vs[i].n) + Pack(l, vs[i + 1..])
  {
    AllTypedFrom(l, vs, i);
    AllTypedFrom(l, vs, i + 1);
    NumbersAre(l, vs[i]);
    hide Typed, EncodeNumber;
    assert vs[i..][1..] == vs[i + 1..] && vs[i..][0] == vs[i];
  }

  /** One number after another. */
  method EncodeNumbers(s: OStream, l: LType, vs: seq<Value>) returns (ok: bool)
    requires s.Valid() && Packable(l) && AllTyped(l, vs)
    modifies s
    ensures s.Valid() && Took(s.sizing, s.maxSize, old(s.State()), s.State(), ok, Some(Pack(l, vs)))
  {
    hide Took, Typed, AllTyped, EncodeNumber, Pack, Append;
    ghost var s0, p := s.State(), Some([]);
    NothingTaken(s.sizing, s.maxSize, s0);
    AllTypedFrom(l, vs, 0);
    assert vs[0..] == vs;
    AppendRegroups(p, Some(Pack(l, vs)), p);
    ok := true;
    var i := 0;
    while ok && i < |vs|
      invariant i <= |vs| && s.Valid() && AllTyped(l, vs[i..])
      invariant Took(s.sizing, s.maxSize, s0, s.State(), ok, p)
      invariant Append(p, Some(Pack(l, vs[i..]))) == Some(Pack(l, vs))
      decreases |vs| - i, ok
    {
      PackStep(l, vs, i);
      ghost var s1 := s.State();
      ok := s.EncodeNum(l, vs[i].n);
      ghost var e := Some(EncodeNumber(l, vs[i].n));
      TookBoth(s.sizing, s.maxSize, s0, s1, s.State(), true, p, ok, e);
      AppendRegroups(p, e, Some(Pack(l, vs[i + 1..])));
      AppendOfTwo(EncodeNumber(l, vs[i].n), Pack(l, vs[i + 1..]));
      p := Append(p, e);
      i := i + 1;
    }
    if ok {
      assert vs[i..] == [];
      PackOfNone(l);
      AppendRegroups(p, p, p);
    } else {
      TookBoth(s.sizing, s.maxSize, s0, s.State(), s.State(), false, p, false, Some(Pack(l, vs[i..])));
    }
  }

  lemma PackOfNone(l: LType)
    requires Packable(l)
    ensures Pack(l, []) == []
  {
  }

  lemma AppendOfTwo(a: Bytes, b: Bytes)
    ensures Append(Some(a), Some(b)) == Some(a + b)
  {
  }

  lemma {:induction false} FixedSizes(l: LType, vs: seq<Value>)
    requires Packable(l) && AllTyped(l, vs)
    ensures l.Fixed32T? ==> |Pack(l, vs)| == 4 * |vs|
    ensures l.Fixed64T? ==> |Pack(l, vs)| == 8 * |vs|
  {
    if vs != [] {
      NumbersAre(l, vs[0]);
      FixedSizes(l, vs[1..]);
      hide Typed;
    }
  }

  /** The size of a packed array: by the width of its numbers, or by a sizing pass. */
  method PackedSize(l: LType, vs: seq<Value>) returns (size: nat)
    requires Packable(l) && AllTyped(l, vs)
    ensures size == |Pack(l, vs)|
  {
    FixedSizes(l, vs);
    if l.Fixed32T? {
      size := 4 * |vs|;
    } else if l.Fixed64T? {
      size := 8 * |vs|;
    } else {
      hide Pack, AllTyped;
      var sizer := new OStream(true, [], 0);
      var ok := EncodeNumbers(sizer, l, vs);
      SizeIs(sizer.State(), ok, Some(Pack(l, vs)));
      size := sizer.written;
    }
  }

  /** A packed array: tag, size, numbers. */
  method EncodePacked(s: OStream, f: Field, vs: seq<Value>) returns (ok: bool)
    requires s.Valid() && Packable(f.l) && AllTyped(f.l, vs) && FieldOk(f)
    modifies s
    ensures s.Valid()
    ensures Took(s.sizing, s.maxSize, old(s.State()), s.State(), ok, Some(Tag(STRING, f.tag) + Prefixed(Pack(f.l, vs))))
  {
    hide Took, AllTyped, Pack, Tag, Varint, TypeOk, Packable, Append;
    ghost var s0 := s.State();
    ok := s.EncodeTag(STRING, f.tag);
    ghost var s1, first := s.State(), ok;
    if ok {
      ok := EncodeCounted(s, f.l, vs);
    }
    TookBoth(s.sizing, s.maxSize, s0, s1, s.State(), first, Some(Tag(STRING, f.tag)), ok,
      Some(Prefixed(Pack(f.l, vs))));
    AppendOfTwo(Tag(STRING, f.tag), Prefixed(Pack(f.l, vs)));
  }

  method EncodeCounted(s: OStream, l: LType, vs: seq<Value>) returns (ok: bool)
    requires s.Valid() && Packable(l) && AllTyped(l, vs)
    modifies s
    ensures s.Valid() && Took(s.sizing, s.maxSize, old(s.State()), s.State(), ok, Some(Prefixed(Pack(l, vs))))
  {
    hide Took, AllTyped, Pack, Varint, Packable, Append;
    ghost var s0 := s.State();
    var size := PackedSize(l, vs);
    ok := s.EncodeVarint(size);
    ghost var s1, first := s.State(), ok;
    if ok {
      if s.sizing {
        // Just sizing.
        ok := s.Count(size, Pack(l, vs));
      } else {
        ok := EncodeNumbers(s, l, vs);
      }
    }
    TookBoth(s.sizing, s.maxSize, s0, s1, s.State(), first, Some(Varint(size)), ok, Some(Pack(l, vs)));
    AppendOfTwo(Varint(size), Pack(l, vs));
  }

  lemma EntriesStep(f: Field, vs: seq<Value>, i: nat)
    requires AllTyped(f.l, vs) && i < |vs|
    ensures AllTyped(f.l, vs[i..]) && AllTyped(f.l, vs[i + 1..]) && Typed(f.l, vs[i])
    ensures EncodeEntries(f, vs[i..]) == Append(Tagged(f, vs[i]), EncodeEntries(f, vs[i + 1..]))
  {
    AllTypedFrom(f.l, vs, i);
    AllTypedFrom(f.l, vs, i + 1);
    hide Typed, Tagged, Append;
    assert vs[i..][1..] == vs[i + 1..] && vs[i..][0] == vs[i];
  }

  /** One entry after another, each under the tag. */
  method EncodeArray(s: OStream, f: Field, vs: seq<Value>) returns (ok: bool)
    requires s.Valid() && AllTyped(f.l, vs) && FieldOk(f)
    modifies s
    ensures s.Valid() && Took(s.sizing, s.maxSize, old(s.State()), s.State(), ok, EncodeEntries(f, vs))
    decreases f, 2
  {
    hide Took, Typed, AllTyped, Tagged, EncodeEntries, Append, TypeOk;
    ghost var s0, p := s.State(), Some([]);
    NothingTaken(s.sizing, s.maxSize, s0);
    assert vs[0..] == vs;
    AppendRegroups(p, EncodeEntries(f, vs), p);
    ok := true;
    var i := 0;
    while ok && i < |vs|
      invariant i <= |vs| && s.Valid() && AllTyped(f.l, vs[i..])
      invariant Took(s.sizing, s.maxSize, s0, s.State(), ok, p)
      invariant Append(p, EncodeEntries(f, vs[i..])) == EncodeEntries(f, vs)
      decreases |vs| - i, ok
    {
      EntriesStep(f, vs, i);
      ghost var s1 := s.State();
      ok := EncodeTagged(s, f, vs[i]);
      TookBoth(s.sizing, s.maxSize, s0, s1, s.State(), true, p, ok, Tagged(f, vs[i]));
      AppendRegroups(p, Tagged(f, vs[i]), EncodeEntries(f, vs[i + 1..]));
      p := Append(p, Tagged(f, vs[i]));
      i := i + 1;
    }
    if ok {
      assert vs[i..] == [];
      NoEntries(f);
      AppendRegroups(p, p, p);
    } else {
      TookBoth(s.sizing, s.maxSize, s0, s.State(), s.State(), false, p, false, EncodeEntries(f, vs[i..]));
    }
  }

  lemma NoEntries(f: Field)
    ensures EncodeEntries(f, []) == Some([])
  {
  }

  // ------------------------------------------------------------------ fields

  /** encode_basic_field. */
  method EncodeField(s: OStream, f: Field, slot: Slot) returns (ok: bool)
    requires s.Valid() && SlotTyped(f, slot) && FieldOk(f)
    modifies s
    ensures s.Valid() && Took(s.sizing, s.maxSize, old(s.State()), s.State(), ok, EncodeSlot(f, slot))
    decreases f, 3
  {
    hide Took, Typed, AllTyped, Tagged, EncodeEntries, Append, TypeOk, IsDefault, Pack, Tag, Packable;
    NothingTaken(s.sizing, s.maxSize, s.State());
    NoWireForm(s.sizing, s.maxSize, s.State());
    match f.h
    case Required =>
      ok := EncodeTagged(s, f, slot.v);
    case Repeated(max) =>
      if slot.vs == [] {
        return true;
      }
      if |slot.vs| > max {
        return false;
      }
      if Packable(f.l) {
        ok := EncodePacked(s, f, slot.vs);
      } else {
        ok := EncodeArray(s, f, slot.vs);
      }
    case Optional =>
      ok := true;
      if slot.present {
        ok := EncodeTagged(s, f, slot.v);
      }
    case Oneof(_) =>
      ok := true;
      if slot.present {
        ok := EncodeTagged(s, f, slot.v);
      }
    case Singular =>
      ok := true;
      if !IsDefault(f.l, slot.v) {
        ok := EncodeTagged(s, f, slot.v);
      }
  }

  lemma MessageStep(fields: seq<Field>, m: Message, i: nat)
    requires MessageTyped(fields, m) && FieldsOk(fields) && i <= |fields|
    ensures |m| == |fields| && MessageTyped(fields[i..], m[i..]) && FieldsOk(fields[i..])
    ensures i < |fields| ==>
            SlotTyped(fields[i], m[i]) && FieldOk(fields[i]) && MessageTyped(fields[i + 1..], m[i + 1..]) &&
            FieldsOk(fields[i + 1..])
    ensures i < |fields| ==>
              EncodeMessage(fields[i..], m[i..]) ==
                Append(EncodeSlot(fields[i], m[i]), EncodeMessage(fields[i + 1..], m[i + 1..]))
  {
    hide SlotTyped, FieldOk, EncodeSlot, Append;
    if i == 0 {
      assert fields[0..] == fields && m[0..] == m;
    } else {
      MessageStep(fields[1..], m[1..], i - 1);
      assert fields[1..][i - 1..] == fields[i..] && m[1..][i - 1..] == m[i..];
      if i < |fields| { assert fields[1..][i..] == fields[i + 1..] && m[1..][i..] == m[i + 1..]; }
    }
  }

  /** pb_encode: one field after another. */
  method Encode(s: OStream, fields: seq<Field>, m: Message) returns (ok: bool)
    requires s.Valid() && MessageTyped(fields, m) && FieldsOk(fields)
    modifies s
    ensures s.Valid() && Took(s.sizing, s.maxSize, old(s.State()), s.State(), ok, EncodeMessage(fields, m))
    decreases fields, 4
  {
    hide Took, SlotTyped, MessageTyped, FieldsOk, EncodeSlot, EncodeMessage, Append, FieldOk;
    ghost var s0, p := s.State(), Some([]);
    NothingTaken(s.sizing, s.maxSize, s0);
    MessageStep(fields, m, 0);
    assert fields[0..] == fields && m[0..] == m;
    AppendRegroups(p, EncodeMessage(fields, m), p);
    ok := true;
    var i := 0;
    while ok && i < |fields|
      invariant i <= |fields| == |m| && s.Valid() && MessageTyped(fields[i..], m[i..])
      invariant Took(s.sizing, s.maxSize, s0, s.State(), ok, p)
      invariant Append(p, EncodeMessage(fields[i..], m[i..])) == EncodeMessage(fields, m)
      decreases |fields| - i, ok
    {
      MessageStep(fields, m, i);
      ghost var s1, e := s.State(), EncodeSlot(fields[i], m[i]);
      ok := EncodeField(s, fields[i], m[i]);
      TookBoth(s.sizing, s.maxSize, s0, s1, s.State(), true, p, ok, e);
      AppendRegroups(p, e, EncodeMessage(fields[i + 1..], m[i + 1..]));
      p := Append(p, e);
      i := i + 1;
    }
    if ok {
      assert fields[i..] == [] && m[i..] == [];
      NoFields();
      AppendRegroups(p, p, p);
    } else {
      TookBoth(s.sizing, s.maxSize, s0, s.State(), s.State(), false, p, false, EncodeMessage(fields[i..], m[i..]));
    }
  }

  lemma NoFields()
    ensures EncodeMessage([], []) == Some([])
  {
  }

  /** pb_get_encoded_size: the sizing pass returns exactly the number of bytes the writing pass emits, and
      fails exactly when there is no wire form. */
  method GetEncodedSize(fields: seq<Field>, m: Message) returns (ok: bool, size: nat)
    requires MessageTyped(fields, m) && FieldsOk(fields)
    ensures ok <==> EncodeMessage(fields, m).Some?
    ensures ok ==> size == |EncodeMessage(fields, m).value|
  {
    hide EncodeMessage, MessageTyped, FieldsOk;
    var s := new OStream(true, [], 0);
    ok := Encode(s, fields, m);
    SizeIs(s.State(), ok, EncodeMessage(fields, m));
    size := s.written;
  }

  /** Writing into a buffer succeeds exactly when the sizing pass does and its size fits, and then emits the
      wire form. */
  method EncodeToBuffer(fields: seq<Field>, m: Message, maxSize: nat) returns (ok: bool, wire: Bytes)
    requires MessageTyped(fields, m) && FieldsOk(fields)
    ensures ok <==> EncodeMessage(fields, m).Some? && |EncodeMessage(fields, m).value| <= maxSize
    ensures ok ==> wire == EncodeMessage(fields, m).value
  {
    hide EncodeMessage, MessageTyped, FieldsOk;
    var s := new OStream(false, [], maxSize);
    ok := Encode(s, fields, m);
    wire := s.buffer;
    if ok { assert [] + EncodeMessage(fields, m).value == EncodeMessage(fields, m).value; }
  }
}
