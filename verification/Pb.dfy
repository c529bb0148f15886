/** Protocol buffer messages as nanopb describes and encodes them (pb.h, pb_encode.c): descriptors, the values
    of a message's struct, and its wire form.  Static allocation only. */
module Pb {
  import opened Coding
  import opened Keys

  // ------------------------------------------------------------------ descriptors and values

  /** How a field's data is stored; numbers carry their size in bytes. */
  datatype LType =
    | BoolT
    | VarintT(size: nat)
    | UvarintT(size: nat)
    | SvarintT(size: nat)
    | Fixed32T
    | Fixed64T
    | BytesT(max: nat)
    | StringT(max: nat)
    | SubmessageT(fields: seq<Field>)
    | FixedBytesT(length: nat)

  /** Optional fields have a flag, singular ones (proto3) do not; the fields of a oneof share a selector. */
  datatype HType = Required | Optional | Singular | Repeated(max: nat) | Oneof(group: nat)

  datatype Field = Field(tag: nat, h: HType, l: LType)

  datatype Value = Num(n: int) | Blob(b: Bytes) | Msg(slots: seq<Slot>)

  /** What a struct holds for a field: its data and whether it is present, or the entries of an array. */
  datatype Slot = One(present: bool, v: Value) | Many(vs: seq<Value>)

  type Message = seq<Slot>

  predicate Packable(l: LType) {
    l.BoolT? || l.VarintT? || l.UvarintT? || l.SvarintT? || l.Fixed32T? || l.Fixed64T?
  }

  /** The number of values of an integer of `size` bytes. */
  function Modulus(size: nat): (m: nat) {
    if size == 1 then 256 else if size == 2 then 65536 else if size == 4 then WORD else LONG
  }

  predicate SizeOk(size: nat) {
    size == 1 || size == 2 || size == 4 || size == 8
  }

  /** Descriptors the generator makes: known sizes, and tags that fit with a wire type into 32 bits. */
  predicate TypeOk(l: LType)
    decreases l, 0
  {
    match l
    case VarintT(size) => SizeOk(size)
    case UvarintT(size) => SizeOk(size)
    case SvarintT(size) => SizeOk(size)
    case BytesT(max) => max < WORD
    case StringT(max) => max < WORD
    case FixedBytesT(n) => n < WORD
    case SubmessageT(fields) => FieldsOk(fields)
    case _ => true
  }

  predicate FieldOk(f: Field)
    decreases f, 1
  {
    0 < f.tag < 0x2000_0000 && TypeOk(f.l)
  }

  predicate FieldsOk(fields: seq<Field>)
    decreases fields, 2
  {
    fields == [] ||
    (FieldOk(fields[0]) && FieldsOk(fields[1..]) && forall j :: 0 < j < |fields| ==> fields[j].tag != fields[0].tag)
  }

  /** A number of a C type. */
  predicate InRange(l: LType, n: int)
    requires Packable(l)
  {
    match l
    case BoolT => n == 0 || n == 1
    case VarintT(size) => -(Modulus(size) / 2) <= n < Modulus(size) / 2
    case SvarintT(size) => -(Modulus(size) / 2) <= n < Modulus(size) / 2
    case UvarintT(size) => 0 <= n < Modulus(size)
    case Fixed32T => 0 <= n < WORD
    case Fixed64T => 0 <= n < LONG
  }

  /** The values a struct can hold for a type; a string ends at its first zero byte or fills its buffer. */
  predicate Typed(l: LType, v: Value)
    decreases l, 0
  {
    match l
    case BytesT(_) => v.Blob? && |v.b| < WORD
    case StringT(max) => v.Blob? && |v.b| <= max && forall i :: 0 <= i < |v.b| ==> v.b[i] != 0
    case FixedBytesT(n) => v.Blob? && |v.b| == n
    case SubmessageT(fields) => v.Msg? && MessageTyped(fields, v.slots)
    case _ => v.Num? && InRange(l, v.n)
  }

  predicate AllTyped(l: LType, vs: seq<Value>)
    decreases l, 1, |vs|
  {
    vs == [] || (Typed(l, vs[0]) && AllTyped(l, vs[1..]))
  }

  predicate SlotTyped(f: Field, s: Slot)
    decreases f, 2
  {
    if f.h.Repeated? then s.Many? && AllTyped(f.l, s.vs)
    else s.One? && Typed(f.l, s.v) && (f.h.Required? || f.h.Singular? ==> s.present)
  }

  /** The first field's oneof, if it is the one present, has no other field present. */
  predicate OthersAbsent(fields: seq<Field>, m: Message)
    requires |fields| == |m| > 0
  {
    fields[0].h.Oneof? && m[0].One? && m[0].present ==>
      forall j :: 0 < j < |fields| && fields[j].h == fields[0].h && m[j].One? ==> !m[j].present
  }

  predicate MessageTyped(fields: seq<Field>, m: Message)
    decreases fields, 3
  {
    |fields| == |m| &&
    (fields == [] || (SlotTyped(fields[0], m[0]) && MessageTyped(fields[1..], m[1..]) && OthersAbsent(fields, m)))
  }

  // ------------------------------------------------------------------ numbers on the wire

  /** Two's complement in 64 bits, or zigzag. */
  function WireNumber(l: LType, n: int): (w: int)
    requires Packable(l)
  {
    match l
    case BoolT => if n != 0 then 1 else 0
    case VarintT(_) => if n < 0 then n + LONG else n
    case SvarintT(_) => if n < 0 then -2 * n - 1 else 2 * n
    case _ => n
  }

  lemma WireNumberFits(l: LType, n: int)
    requires Packable(l) && InRange(l, n)
    ensures 0 <= WireNumber(l, n) < LONG
  {
  }

  function EncodeNumber(l: LType, n: int): Bytes
    requires Packable(l) && InRange(l, n)
  {
    WireNumberFits(l, n);
    if l.Fixed32T? then Fixed32(n) else if l.Fixed64T? then Fixed64(n) else Varint(WireNumber(l, n))
  }

  // Wire types.
  const VARINT: nat := 0
  const BITS64: nat := 1
  const STRING: nat := 2
  const BITS32: nat := 5

  function WireType(l: LType): nat {
    match l
    case Fixed32T => BITS32
    case Fixed64T => BITS64
    case BytesT(_) => STRING
    case StringT(_) => STRING
    case SubmessageT(_) => STRING
    case FixedBytesT(_) => STRING
    case _ => VARINT
  }

  function Tag(wireType: nat, tag: nat): Bytes {
    Varint(tag * 8 + wireType)
  }

  // ------------------------------------------------------------------ messages on the wire

  /** pb_check_proto3_default_value, for the data of a field. */
  predicate IsDefault(l: LType, v: Value)
    requires Typed(l, v)
    decreases l, 0
  {
    match l
    case BytesT(_) => v.b == []
    case StringT(_) => v.b == []
    case FixedBytesT(n) => n == 0
    case SubmessageT(fields) => AllDefault(fields, v.slots)
    case _ => v.n == 0
  }

  predicate AllDefault(fields: seq<Field>, m: Message)
    requires MessageTyped(fields, m)
    decreases fields, 3
  {
    fields == [] || (SlotDefault(fields[0], m[0]) && AllDefault(fields[1..], m[1..]))
  }

  predicate SlotDefault(f: Field, s: Slot)
    requires SlotTyped(f, s)
    decreases f, 2
  {
    match f.h
    case Required => false
    case Repeated(_) => s.vs == []
    case Oneof(_) => !s.present
    case Optional => !s.present
    case Singular => IsDefault(f.l, s.v)
  }

  function Append(a: Option<Bytes>, b: Option<Bytes>): Option<Bytes> {
    if a.Some? && b.Some? then Some(a.value + b.value) else None
  }

  function EncodeValue(l: LType, v: Value): Option<Bytes>
    requires Typed(l, v)
    decreases l, 0
  {
    match l
    case BytesT(max) => if |v.b| > max then None else Some(Prefixed(v.b))
    case StringT(_) => Some(Prefixed(v.b))
    case FixedBytesT(_) => Some(Prefixed(v.b))
    case SubmessageT(fields) =>
      var w := EncodeMessage(fields, v.slots);
      if w.None? then None else Some(Prefixed(w.value))
    case _ => Some(EncodeNumber(l, v.n))
  }

  function Tagged(f: Field, v: Value): Option<Bytes>
    requires Typed(f.l, v)
    decreases f, 1
  {
    Append(Some(Tag(WireType(f.l), f.tag)), EncodeValue(f.l, v))
  }

  lemma NumbersAre(l: LType, v: Value)
    requires Packable(l)
    ensures Typed(l, v) <==> v.Num? && InRange(l, v.n)
  {
  }

  /** The numbers of a packed array. */
  function Pack(l: LType, vs: seq<Value>): Bytes
    requires Packable(l) && AllTyped(l, vs)
  {
    if vs == [] then [] else
    NumbersAre(l, vs[0]);
    EncodeNumber(l, vs[0].n) + Pack(l, vs[1..])
  }

  /** The entries of an array, each under the tag. */
  function EncodeEntries(f: Field, vs: seq<Value>): Option<Bytes>
    requires AllTyped(f.l, vs)
    decreases f, 2, |vs|
  {
    if vs == [] then Some([]) else Append(Tagged(f, vs[0]), EncodeEntries(f, vs[1..]))
  }

  function EncodeSlot(f: Field, s: Slot): Option<Bytes>
    requires SlotTyped(f, s)
    decreases f, 3
  {
    match f.h
    case Required => Tagged(f, s.v)
    case Optional => if s.present then Tagged(f, s.v) else Some([])
    case Oneof(_) => if s.present then Tagged(f, s.v) else Some([])
    case Singular => if IsDefault(f.l, s.v) then Some([]) else Tagged(f, s.v)
    case Repeated(max) =>
      if s.vs == [] then Some([])
      else if |s.vs| > max then None
      else if Packable(f.l) then Some(Tag(STRING, f.tag) + Prefixed(Pack(f.l, s.vs)))
      else EncodeEntries(f, s.vs)
  }

  /** The wire form of a message; none if an array or a byte string exceeds its space. */
  function EncodeMessage(fields: seq<Field>, m: Message): Option<Bytes>
    requires MessageTyped(fields, m)
    decreases fields, 4
  {
    if fields == [] then Some([]) else Append(EncodeSlot(fields[0], m[0]), EncodeMessage(fields[1..], m[1..]))
  }
}
