/** What a round trip keeps: the restored message has the same wire form, and restoring it again changes nothing. */
module PbNormal {
  import opened Coding
  import opened Keys
  import opened Pb
  import opened PbDecode
  import PbEncode
  import PbDecoder
  import opened PbRoundTrip

  // ------------------------------------------------------------------ defaults

  lemma {:induction false} DefaultTyped(l: LType)
    ensures Typed(l, DefaultValue(l))
    decreases l, 0
  {
    if l.SubmessageT? { DefaultsTyped(l.fields); }
  }

  lemma {:induction false} DefaultSlotTyped(f: Field)
    ensures SlotTyped(f, DefaultSlot(f)) && (DefaultSlot(f).One? && f.h.Oneof? ==> !DefaultSlot(f).present)
    decreases f, 1
  {
    hide Typed, DefaultValue;
    DefaultTyped(f.l);
  }

  lemma {:induction false} DefaultsTyped(fields: seq<Field>)
    ensures MessageTyped(fields, Defaults(fields))
    decreases fields, 2
  {
    hide SlotTyped, DefaultSlot;
    if fields != [] {
      DefaultSlotTyped(fields[0]);
      DefaultsTyped(fields[1..]);
      var d := Defaults(fields);
      assert d[0] == DefaultSlot(fields[0]) && d[1..] == Defaults(fields[1..]);
      DefaultOthersAbsent(fields);
    }
  }

  lemma DefaultOthersAbsent(fields: seq<Field>)
    requires fields != []
    ensures OthersAbsent(fields, Defaults(fields))
  {
    assert Defaults(fields)[0] == DefaultSlot(fields[0]);
  }

  /** If any value of a type counts as its default, the type's default value does. */
  lemma {:induction false} DefaultIsDefault(l: LType, v: Value)
    requires Typed(l, v) && IsDefault(l, v)
    ensures Typed(l, DefaultValue(l)) && IsDefault(l, DefaultValue(l))
    decreases l, 0
  {
    DefaultTyped(l);
    if l.SubmessageT? { DefaultsAreDefault(l.fields, v.slots); }
  }

  lemma {:induction false} DefaultsAreDefault(fields: seq<Field>, m: Message)
    requires MessageTyped(fields, m) && AllDefault(fields, m)
    ensures MessageTyped(fields, Defaults(fields)) && AllDefault(fields, Defaults(fields))
    decreases fields, 2
  {
    hide SlotTyped, DefaultSlot, SlotDefault;
    DefaultsTyped(fields);
    if fields != [] {
      SlotsDefault(fields[0], m[0]);
      DefaultsAreDefault(fields[1..], m[1..]);
      var d := Defaults(fields);
      assert d[0] == DefaultSlot(fields[0]) && d[1..] == Defaults(fields[1..]);
    }
  }

  lemma {:induction false} SlotsDefault(f: Field, s: Slot)
    requires SlotTyped(f, s) && SlotDefault(f, s)
    ensures SlotTyped(f, DefaultSlot(f)) && SlotDefault(f, DefaultSlot(f))
    decreases f, 1
  {
    hide Typed, DefaultValue, IsDefault;
    DefaultSlotTyped(f);
    if f.h.Singular? { DefaultIsDefault(f.l, s.v); }
  }

  // ------------------------------------------------------------------ restored messages

  /** Two values of a type that the encoder cannot tell apart. */
  ghost predicate SameValue(l: LType, v: Value, u: Value)
    requires Typed(l, v)
  {
    Typed(l, u) && (IsDefault(l, u) <==> IsDefault(l, v)) && EncodeValue(l, u) == EncodeValue(l, v)
  }

  ghost predicate SameSlot(f: Field, s: Slot, t: Slot)
    requires SlotTyped(f, s)
  {
    SlotTyped(f, t) && (SlotDefault(f, t) <==> SlotDefault(f, s)) && EncodeSlot(f, t) == EncodeSlot(f, s) &&
      SamePresence(f, s, t)
  }

  predicate SamePresence(f: Field, s: Slot, t: Slot) {
    f.h.Oneof? && s.One? && t.One? ==> s.present == t.present
  }

  ghost predicate SameMessage(fields: seq<Field>, m: Message, n: Message)
    requires MessageTyped(fields, m)
  {
    MessageTyped(fields, n) && (AllDefault(fields, n) <==> AllDefault(fields, m)) &&
      EncodeMessage(fields, n) == EncodeMessage(fields, m)
  }

  lemma {:induction false} NormalValueIsSame(l: LType, v: Value)
    requires Typed(l, v)
    ensures SameValue(l, v, NormalValue(l, v))
    decreases l, 0
  {
    if l.SubmessageT? {
      hide MessageTyped, AllDefault, EncodeMessage, Varint;
      NormalMessageIsSame(l.fields, v.slots);
    }
  }

  lemma {:induction false} NormalAllTyped(l: LType, vs: seq<Value>)
    requires AllTyped(l, vs)
    ensures AllTyped(l, NormalAll(l, vs))
    decreases l, 1, |vs|
  {
    hide Typed, NormalValue, SameValue;
    if vs != [] {
      NormalValueIsSame(l, vs[0]);
      SameIsTyped(l, vs[0], NormalValue(l, vs[0]));
      NormalAllTyped(l, vs[1..]);
      assert NormalAll(l, vs)[1..] == NormalAll(l, vs[1..]);
    }
  }

  lemma SameIsTyped(l: LType, v: Value, u: Value)
    requires Typed(l, v) && SameValue(l, v, u)
    ensures Typed(l, u) && EncodeValue(l, u) == EncodeValue(l, v)
  {
  }

  lemma {:induction false} NormalEntriesAreSame(f: Field, vs: seq<Value>)
    requires AllTyped(f.l, vs)
    ensures AllTyped(f.l, NormalAll(f.l, vs)) && EncodeEntries(f, NormalAll(f.l, vs)) == EncodeEntries(f, vs)
    decreases f, 2, |vs|
  {
    hide Typed, NormalValue, SameValue, EncodeValue, Tag;
    NormalAllTyped(f.l, vs);
    if vs != [] {
      NormalValueIsSame(f.l, vs[0]);
      SameIsTyped(f.l, vs[0], NormalValue(f.l, vs[0]));
      NormalEntriesAreSame(f, vs[1..]);
      assert NormalAll(f.l, vs)[1..] == NormalAll(f.l, vs[1..]);
    }
  }

  lemma {:induction false} NormalSlotIsSame(f: Field, s: Slot)
    requires SlotTyped(f, s)
    ensures SameSlot(f, s, NormalSlot(f, s))
    decreases f, 3
  {
    if f.h.Repeated? {
      NormalArrayIsSame(f, s);
    } else if Written(f, s) {
      NormalValueIsSame(f.l, s.v);
      WrittenIsSame(f, s);
    } else {
      UnwrittenIsSame(f, s);
    }
  }

  lemma {:induction false} NormalArrayIsSame(f: Field, s: Slot)
    requires SlotTyped(f, s) && f.h.Repeated?
    ensures SameSlot(f, s, NormalSlot(f, s))
    decreases f, 2, |s.vs| + 1
  {
    hide AllTyped, NormalAll, EncodeEntries, Pack, Packable, Tag, Varint;
    NormalAllTyped(f.l, s.vs);
    NormalEntriesAreSame(f, s.vs);
    if Packable(f.l) { NumbersAreNormal(f.l, s.vs); }
  }

  lemma WrittenIsSame(f: Field, s: Slot)
    requires SlotTyped(f, s) && !f.h.Repeated? && Written(f, s) && SameValue(f.l, s.v, NormalValue(f.l, s.v))
    ensures SameSlot(f, s, NormalSlot(f, s))
  {
    hide Typed, EncodeValue, IsDefault, NormalValue, Tag;
    var u := NormalValue(f.l, s.v);
    assert Tagged(f, u) == Tagged(f, s.v);
    var t := NormalSlot(f, s);
    assert t == One(true, u) && SlotTyped(f, t);
    assert EncodeSlot(f, t) == EncodeSlot(f, s);
  }

  lemma UnwrittenIsSame(f: Field, s: Slot)
    requires SlotTyped(f, s) && !f.h.Repeated? && !Written(f, s)
    ensures SameSlot(f, s, NormalSlot(f, s))
  {
    hide SlotTyped, SlotDefault, EncodeSlot, NormalSlot, DefaultSlot;
    AbsentIsDefault(f, s);
    UnwrittenIsNothing(f, s);
    DefaultIsUnwritten(f, s);
    UnwrittenIsNothing(f, DefaultSlot(f));
  }

  lemma DefaultIsUnwritten(f: Field, s: Slot)
    requires SlotTyped(f, s) && !f.h.Repeated? && !Written(f, s)
    ensures SlotTyped(f, DefaultSlot(f)) && !Written(f, DefaultSlot(f)) && SamePresence(f, s, DefaultSlot(f))
    ensures SlotDefault(f, s) && SlotDefault(f, DefaultSlot(f))
  {
    hide Typed, IsDefault, DefaultValue;
    DefaultSlotTyped(f);
    if f.h.Singular? { DefaultIsDefault(f.l, s.v); }
  }

  /** The restored message is one the struct can hold, and it has the same wire form. */
  lemma {:induction false} NormalMessageIsSame(fields: seq<Field>, m: Message)
    requires MessageTyped(fields, m)
    ensures SameMessage(fields, m, NormalMessage(fields, m))
    decreases fields, 4
  {
    hide SlotTyped, NormalSlot, SameSlot, EncodeSlot, SlotDefault;
    if fields != [] {
      NormalSlotIsSame(fields[0], m[0]);
      SameSlotIs(fields[0], m[0], NormalSlot(fields[0], m[0]));
      NormalMessageIsSame(fields[1..], m[1..]);
      var n := NormalMessage(fields, m);
      assert n[0] == NormalSlot(fields[0], m[0]) && n[1..] == NormalMessage(fields[1..], m[1..]);
      NormalOthersAbsent(fields, m);
    }
  }

  lemma SameSlotIs(f: Field, s: Slot, t: Slot)
    requires SlotTyped(f, s) && SameSlot(f, s, t)
    ensures SlotTyped(f, t) && (SlotDefault(f, t) <==> SlotDefault(f, s)) && EncodeSlot(f, t) == EncodeSlot(f, s)
  {
  }

  lemma NormalOthersAbsent(fields: seq<Field>, m: Message)
    requires MessageTyped(fields, m) && fields != []
    ensures OthersAbsent(fields, NormalMessage(fields, m))
  {
    hide SlotTyped, NormalSlot, Written;
    var n := NormalMessage(fields, m);
    if fields[0].h.Oneof? {
      NormalAt(fields, m, 0);
      OneofPresence(fields[0], m[0]);
      forall j | 0 < j < |fields| && fields[j].h == fields[0].h
        ensures m[j].One? && n[j].One? && n[j].present == m[j].present
      {
        NormalAt(fields, m, j);
        OneofPresence(fields[j], m[j]);
      }
    }
  }

  lemma OneofPresence(f: Field, s: Slot)
    requires SlotTyped(f, s) && f.h.Oneof?
    ensures s.One? && NormalSlot(f, s).One? && NormalSlot(f, s).present == s.present
  {
    hide Typed, NormalValue, DefaultValue;
  }

  // ------------------------------------------------------------------ the round trip

  /** A message that was encoded decodes exactly when every string in it leaves room for its terminator.  What is
      then restored is the message up to the data of fields that are not written: it has the same wire form, and
      encoding and decoding it restores all of it. */
  lemma DecodeEncoded(fields: seq<Field>, m: Message, w: Bytes)
    requires FieldsOk(fields) && MessageTyped(fields, m) && EncodeMessage(fields, m) == Some(w) && |w| < WORD
    ensures Decoded(fields, w).Some? <==> MessageTerminated(fields, m)
    ensures MessageTerminated(fields, m) ==>
              var n := NormalMessage(fields, m);
              && Decoded(fields, w) == Some(n)
              && MessageTyped(fields, n) && EncodeMessage(fields, n) == Some(w) && NormalMessage(fields, n) == n
  {
    hide FieldsOk, MessageTyped, EncodeMessage, DecodeLoop, MessageTerminated, NormalMessage, Defaults, AllDefault;
    MessageReads(fields, m, w);
    NormalMessageIsSame(fields, m);
    MessageReads(fields, NormalMessage(fields, m), w);
  }

  predicate SubmessagesRestored(f: Field, s: Slot, n: Slot)
    requires SlotTyped(f, s) && f.l.SubmessageT?
  {
    if f.h.Repeated? then
      n.Many? && |n.vs| == |s.vs| &&
      forall k :: 0 <= k < |s.vs| ==> EntryRestored(f.l, s.vs[k], n.vs[k])
    else n.One? && n.present && EntryRestored(f.l, s.v, n.v)
  }

  predicate EntryRestored(l: LType, v: Value, u: Value)
    requires l.SubmessageT?
  {
    Typed(l, v) && u == Msg(NormalMessage(l.fields, v.slots))
  }

  /** The encoder and the decoder together. */
  method EncodeThenDecode(fields: seq<Field>, m: Message, maxSize: nat)
    returns (encoded: bool, decoded: bool, n: Message)
    requires FieldsOk(fields) && MessageTyped(fields, m) && maxSize < WORD
    ensures encoded <==> EncodeMessage(fields, m).Some? && |EncodeMessage(fields, m).value| <= maxSize
    ensures decoded <==> encoded && MessageTerminated(fields, m)
    ensures decoded ==> n == NormalMessage(fields, m)
  {
    hide FieldsOk, MessageTyped, EncodeMessage, MessageTerminated, NormalMessage, Decoded;
    var wire;
    encoded, wire := PbEncode.EncodeToBuffer(fields, m, maxSize);
    decoded, n := false, [];
    if encoded {
      DecodeEncoded(fields, m, wire);
      var s := new PbDecoder.IStream(wire);
      decoded, n := PbDecoder.Decode(s, fields);
    }
  }

  lemma {:induction false} AllAreNormal(l: LType, vs: seq<Value>)
    requires AllTyped(l, vs)
    ensures !l.SubmessageT? ==> NormalAll(l, vs) == vs
    ensures l.SubmessageT? ==> forall k :: 0 <= k < |vs| ==> EntryRestored(l, vs[k], NormalAll(l, vs)[k])
  {
    hide Typed;
    if vs != [] { AllAreNormal(l, vs[1..]); }
  }

  /** The present fields of a restored message are the ones that were written, with their data. */
  lemma WrittenAreRestored(fields: seq<Field>, m: Message, i: nat)
    requires MessageTyped(fields, m) && i < |fields|
    ensures |m| == |fields| && SlotTyped(fields[i], m[i])
    ensures var f, s, n := fields[i], m[i], NormalMessage(fields, m)[i];
            if !Written(f, s) then n == DefaultSlot(f)
            else if f.l.SubmessageT? then SubmessagesRestored(f, s, n)
            else n == s
  {
    hide MessageTyped, NormalMessage;
    NormalAt(fields, m, i);
    var f, s := fields[i], m[i];
    if f.h.Repeated? {
      AllAreNormal(f.l, s.vs);
    } else {
      hide Typed, IsDefault;
    }
  }

  /** A string that fills its buffer is written, but what was written cannot be read. */
  lemma FullStringIsLost(b: Byte)
    requires b != 0
    ensures var fields, m := [Field(1, Singular, StringT(1))], [One(true, Blob([b]))];
            FieldsOk(fields) && MessageTyped(fields, m) &&
            EncodeMessage(fields, m) == Some([10, 1, b]) && Decoded(fields, [10, 1, b]) == None
  {
    var fields, m := [Field(1, Singular, StringT(1))], [One(true, Blob([b]))];
    assert FieldOk(fields[0]) && FieldsOk(fields[1..]);
    assert SlotTyped(fields[0], m[0]) && MessageTyped(fields[1..], m[1..]);
    assert Tag(STRING, 1) == [10] && Prefixed([b]) == [1, b];
    assert EncodeValue(StringT(1), m[0].v) == Some([1, b]) && [10] + [1, b] == [10, 1, b];
    assert Tagged(fields[0], m[0].v) == Some([10, 1, b]);
    PbEncode.NoFields();
    var w: Bytes := [10, 1, b];
    assert w + [] == w;
    assert EncodeMessage(fields, m) == Some(w);
    assert !SlotTerminated(fields[0], m[0]);
    DecodeEncoded(fields, m, w);
  }
}
