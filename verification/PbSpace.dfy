/** Which messages have a wire form at all (pb_encode.c): those whose arrays and byte strings respect their space. */
module PbSpace {
  import opened Keys
  import opened Pb

  predicate FitsValue(l: LType, v: Value)
    requires Typed(l, v)
    decreases l, 0
  {
    match l
    case BytesT(max) => |v.b| <= max
    case SubmessageT(fields) => FitsMessage(fields, v.slots)
    case _ => true
  }

  predicate FitsAll(l: LType, vs: seq<Value>)
    requires AllTyped(l, vs)
    decreases l, 1, |vs|
  {
    vs != [] ==> FitsValue(l, vs[0]) && FitsAll(l, vs[1..])
  }

  predicate FitsSlot(f: Field, s: Slot)
    requires SlotTyped(f, s)
    decreases f, 2
  {
    match f.h
    case Repeated(max) => |s.vs| <= max && FitsAll(f.l, s.vs)
    case Optional => s.present ==> FitsValue(f.l, s.v)
    case Oneof(_) => s.present ==> FitsValue(f.l, s.v)
    case _ => FitsValue(f.l, s.v)
  }

  predicate FitsMessage(fields: seq<Field>, m: Message)
    requires MessageTyped(fields, m)
    decreases fields, 3
  {
    fields != [] ==> FitsSlot(fields[0], m[0]) && FitsMessage(fields[1..], m[1..])
  }

  // ------------------------------------------------------------------ numbers and defaults always fit

  lemma {:induction false} NumbersFit(l: LType, vs: seq<Value>)
    requires Packable(l) && AllTyped(l, vs)
    ensures FitsAll(l, vs)
  {
    if vs != [] { NumbersFit(l, vs[1..]); }
  }

  lemma {:induction false} DefaultFits(l: LType, v: Value)
    requires Typed(l, v) && IsDefault(l, v)
    ensures FitsValue(l, v)
    decreases l, 0
  {
    if l.SubmessageT? { DefaultsFit(l.fields, v.slots); }
  }

  lemma {:induction false} DefaultsFit(fields: seq<Field>, m: Message)
    requires MessageTyped(fields, m) && AllDefault(fields, m)
    ensures FitsMessage(fields, m)
    decreases fields, 2
  {
    if fields != [] {
      DefaultSlotFits(fields[0], m[0]);
      DefaultsFit(fields[1..], m[1..]);
    }
  }

  lemma {:induction false} DefaultSlotFits(f: Field, s: Slot)
    requires SlotTyped(f, s) && SlotDefault(f, s)
    ensures FitsSlot(f, s)
    decreases f, 1
  {
    if f.h.Singular? { DefaultFits(f.l, s.v); }
  }

  // ------------------------------------------------------------------ the condition

  lemma {:induction false} ValueEncodesIff(l: LType, v: Value)
    requires Typed(l, v)
    ensures EncodeValue(l, v).Some? <==> FitsValue(l, v)
    decreases l, 0
  {
    if l.SubmessageT? { EncodesIff(l.fields, v.slots); }
  }

  lemma {:induction false} EntriesEncodeIff(f: Field, vs: seq<Value>)
    requires AllTyped(f.l, vs)
    ensures EncodeEntries(f, vs).Some? <==> FitsAll(f.l, vs)
    decreases f, 1, |vs|
  {
    hide EncodeValue, FitsValue, Typed;
    if vs != [] {
      ValueEncodesIff(f.l, vs[0]);
      EntriesEncodeIff(f, vs[1..]);
    }
  }

  lemma {:induction false} SlotEncodesIff(f: Field, s: Slot)
    requires SlotTyped(f, s)
    ensures EncodeSlot(f, s).Some? <==> FitsSlot(f, s)
    decreases f, 2
  {
    hide EncodeValue, FitsValue, EncodeEntries, FitsAll, Typed, AllTyped, IsDefault;
    match f.h
    case Repeated(max) =>
      if Packable(f.l) { NumbersFit(f.l, s.vs); } else { EntriesEncodeIff(f, s.vs); }
      if s.vs == [] { NothingFits(f.l); }
    case Singular =>
      ValueEncodesIff(f.l, s.v);
      if IsDefault(f.l, s.v) { DefaultFits(f.l, s.v); }
    case _ => ValueEncodesIff(f.l, s.v);
  }

  lemma NothingFits(l: LType)
    ensures AllTyped(l, []) && FitsAll(l, [])
  {
  }

  /** A message has a wire form if and only if, at every depth, no array that is written has more entries than its space
      and no byte string that is written is longer than its space. */
  lemma {:induction false} EncodesIff(fields: seq<Field>, m: Message)
    requires MessageTyped(fields, m)
    ensures EncodeMessage(fields, m).Some? <==> FitsMessage(fields, m)
    decreases fields, 3
  {
    hide EncodeSlot, FitsSlot, SlotTyped;
    if fields != [] {
      SlotEncodesIff(fields[0], m[0]);
      EncodesIff(fields[1..], m[1..]);
    }
  }
}
