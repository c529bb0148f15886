/** The decoder (pb_decode.c): what it makes of any bytes. */
module PbDecode {
  import opened Coding
  import opened Keys
  import opened Pb

  // How many required fields are tracked.
  const MAX_REQUIRED: nat := 64

  // ------------------------------------------------------------------ numbers

  /** pb_decode_varint32: five bytes at most carry bits; more must be zero or the sign extension. */
  function Varint32(input: Bytes): (p: Parsed<nat>)
    ensures p.Parsed? ==> |p.rest| < |input|
  {
    if input == [] then Failed
    else if input[0] < 128 then Parsed(input[0], input[1..])
    else Varint32Rest(input[1..], input[0] - 128, 1)
  }

  /** From byte `k` on, with `result` gathered. */
  function Varint32Rest(input: Bytes, result: nat, k: nat): (p: Parsed<nat>)
    ensures p.Parsed? ==> |p.rest| < |input|
  {
    if input == [] then Failed
    else
      var byte: int := input[0];
      var extension := if k < 9 then 255 else 1;
      if k >= 5 && byte % 128 != 0 && (result < 0x8000_0000 || byte != extension) then Failed
      else
        var gathered := Gathered(result, byte, k);
        if byte >= 128 then Varint32Rest(input[1..], gathered, k + 1)
        else if k == 4 && byte >= 16 then Failed
        else Parsed(gathered, input[1..])
  }

  /** Seven more bits of 32, from bit 7 * k on. */
  function Gathered(result: nat, byte: nat, k: nat): nat {
    if k >= 5 then result else (result + byte % 128 * Pow128(k)) % WORD
  }

  /** The value of 64 bits as a signed number. */
  function Signed64(v: nat): int {
    if v >= LONG / 2 then v - LONG else v
  }

  function Signed32(v: nat): int {
    var low := v % WORD;
    if low >= WORD / 2 then low - WORD else low
  }

  function Unzigzag(v: nat): int {
    if v % 2 == 1 then -(v / 2) - 1 else v / 2
  }

  /** What a number of 64 bits becomes in a field's type, or nothing if it is too large for it. */
  function Narrow(l: LType, v: nat): Option<int>
    requires Packable(l)
  {
    match l
    case BoolT => Some(if v != 0 then 1 else 0)
    case VarintT(size) =>
      var n := if size == 8 then Signed64(v) else Signed32(v);
      if InRange(l, n) then Some(n) else None
    case SvarintT(size) => if InRange(l, Unzigzag(v)) then Some(Unzigzag(v)) else None
    case _ => if InRange(l, v) then Some(v) else None
  }

  function DecodeNumber(l: LType, input: Bytes): (p: Parsed<int>)
    requires Packable(l)
    ensures p.Parsed? ==> InRange(l, p.value) && |p.rest| < |input|
  {
    if l.Fixed32T? then
      if |input| < 4 then Failed else Parsed(Coding.DecodeFixed32(input), input[4..])
    else if l.Fixed64T? then
      if |input| < 8 then Failed else Parsed(Coding.DecodeFixed64(input), input[8..])
    else
      ReadersTake(input);
      var p := if l.BoolT? then Varint32(input) else GetVarint64(input);
      if p.Failed? then Failed
      else
        var n := Narrow(l, p.value);
        if n.None? then Failed else Parsed(n.value, p.rest)
  }

  // ------------------------------------------------------------------ defaults

  function Zeros(n: nat): (b: Bytes)
    ensures |b| == n
  {
    seq(n, _ => 0)
  }

  function DefaultValue(l: LType): (v: Value)
    decreases l, 0
  {
    match l
    case BytesT(_) => Blob([])
    case StringT(_) => Blob([])
    case FixedBytesT(n) => Blob(Zeros(n))
    case SubmessageT(fields) => Msg(Defaults(fields))
    case _ => Num(0)
  }

  function DefaultSlot(f: Field): Slot
    decreases f, 1
  {
    if f.h.Repeated? then Many([]) else One(f.h.Required? || f.h.Singular?, DefaultValue(f.l))
  }

  /** pb_message_set_to_defaults. */
  function Defaults(fields: seq<Field>): (m: Message)
    ensures |m| == |fields|
    decreases fields, 2
  {
    if fields == [] then [] else [DefaultSlot(fields[0])] + Defaults(fields[1..])
  }

  // ------------------------------------------------------------------ tags and skipping

  datatype TagRead = BadTag | EndOfMessage | TagRead(tag: nat, wireType: nat, rest: Bytes)

  /** pb_decode_tag on a nonempty stream; a zero ends the message. */
  function ReadTag(input: Bytes): (t: TagRead)
    ensures t.TagRead? ==> |t.rest| < |input|
  {
    var p := Varint32(input);
    if p.Failed? then BadTag
    else if p.value == 0 then EndOfMessage
    else TagRead(p.value / 8, p.value % 8, p.rest)
  }

  function SkipVarint(input: Bytes): Option<Bytes> {
    if input == [] then None else if input[0] >= 128 then SkipVarint(input[1..]) else Some(input[1..])
  }

  /** pb_skip_field. */
  function Skip(wireType: nat, input: Bytes): (rest: Option<Bytes>)
    ensures rest.Some? ==> |rest.value| <= |input|
  {
    if wireType == VARINT then
      SkipTakes(input);
      SkipVarint(input)
    else if wireType == BITS64 then if |input| < 8 then None else Some(input[8..])
    else if wireType == BITS32 then if |input| < 4 then None else Some(input[4..])
    else if wireType == STRING then
      var p := Varint32(input);
      if p.Failed? || |p.rest| < p.value then None else Some(p.rest[p.value..])
    else None
  }

  /** A field with no descriptor.  The terminator of an empty list passes for a required bool of tag zero. */
  function SkipUnknown(fields: seq<Field>, tag: nat, wireType: nat, input: Bytes): (rest: Option<Bytes>)
    ensures rest.Some? ==> |rest.value| <= |input|
  {
    if fields == [] && tag == 0 then
      var p := Varint32(input);
      if p.Failed? then None else Some(p.rest)
    else Skip(wireType, input)
  }

  lemma {:induction false} SkipTakes(input: Bytes)
    ensures var r := SkipVarint(input); r.Some? ==> |r.value| < |input|
  {
    if input != [] && input[0] >= 128 { SkipTakes(input[1..]); }
  }

  function Find(fields: seq<Field>, tag: nat): (i: nat)
    ensures i <= |fields|
    ensures i < |fields| ==> fields[i].tag == tag
    ensures forall j :: 0 <= j < i ==> fields[j].tag != tag
  {
    if fields == [] || fields[0].tag == tag then 0 else 1 + Find(fields[1..], tag)
  }

  // ------------------------------------------------------------------ values, fields and messages

  /** A string ends at its first zero byte. */
  function UntilZero(b: Bytes): Bytes {
    if b == [] || b[0] == 0 then [] else [b[0]] + UntilZero(b[1..])
  }

  /** A length-delimited substream: its bytes and what follows. */
  function Substream(input: Bytes): (p: Parsed<Bytes>)
    ensures p.Parsed? ==> |p.value| < |input| && |p.rest| < |input|
  {
    var p := Varint32(input);
    if p.Failed? || |p.rest| < p.value then Failed else Parsed(p.rest[..p.value], p.rest[p.value..])
  }

  /** The data of a field; `v0` is what the struct holds, `entry` that an array entry is being filled. */
  function DecodeValue(l: LType, v0: Value, entry: bool, input: Bytes): (p: Parsed<Value>)
    ensures p.Parsed? ==> |p.rest| < |input|
    decreases |input|, 1
  {
    if Packable(l) then
      var p := DecodeNumber(l, input);
      if p.Failed? then Failed else Parsed(Num(p.value), p.rest)
    else
      var p := Substream(input);
      if p.Failed? then Failed
      else match l
        case BytesT(max) => if |p.value| > max then Failed else Parsed(Blob(p.value), p.rest)
        case StringT(max) => if |p.value| + 1 > max then Failed else Parsed(Blob(UntilZero(p.value)), p.rest)
        case FixedBytesT(n) =>
          if |p.value| == 0 then Parsed(Blob(Zeros(n)), p.rest)
          else if |p.value| != n then Failed
          else Parsed(Blob(p.value), p.rest)
        case SubmessageT(fields) =>
          var m := if !entry && v0.Msg? && |v0.slots| == |fields| then v0.slots else Defaults(fields);
          var r := DecodeLoop(fields, m, {}, p.value);
          if r.None? then Failed else Parsed(Msg(r.value), p.rest)
  }

  /** The numbers of a packed array, which must fill the substream and fit the array. */
  function Unpack(l: LType, vs: seq<Value>, max: nat, input: Bytes): Option<seq<Value>>
    requires Packable(l)
    decreases |input|
  {
    if input == [] then Some(vs)
    else if |vs| >= max then None
    else
      var p := DecodeNumber(l, input);
      if p.Failed? then None else Unpack(l, vs + [Num(p.value)], max, p.rest)
  }

  /** decode_static_field. */
  function DecodeSlot(f: Field, s: Slot, wireType: nat, input: Bytes): (p: Parsed<Slot>)
    ensures p.Parsed? ==> |p.rest| <= |input|
    decreases |input|, 2
  {
    if f.h.Repeated? then
      var vs := if s.Many? then s.vs else [];
      if wireType == STRING && Packable(f.l) then
        var p := Substream(input);
        if p.Failed? then Failed
        else
          var r := Unpack(f.l, vs, f.h.max, p.value);
          if r.None? then Failed else Parsed(Many(r.value), p.rest)
      else if |vs| >= f.h.max then Failed
      else
        var p := DecodeValue(f.l, DefaultValue(f.l), true, input);
        if p.Failed? then Failed else Parsed(Many(vs + [p.value]), p.rest)
    else
      // The fields of a oneof start from their defaults when they are messages.
      var v0 := if f.h.Oneof? && f.l.SubmessageT? then DefaultValue(f.l) else if s.One? then s.v else DefaultValue(f.l);
      var p := DecodeValue(f.l, v0, false, input);
      if p.Failed? then Failed else Parsed(One(true, p.value), p.rest)
  }

  /** Store a decoded field; a field of a oneof displaces the others. */
  function Store(fields: seq<Field>, m: Message, i: nat, s: Slot): (r: Message)
    requires |fields| == |m| && i < |m|
    ensures |r| == |m|
  {
    seq(|m|, j requires 0 <= j < |m| =>
      if j == i then s
      else if fields[i].h.Oneof? && fields[j].h == fields[i].h then DefaultSlot(fields[j])
      else m[j])
  }

  /** The number of required fields before field `i`. */
  function RequiredBefore(fields: seq<Field>, i: nat): nat
    requires i <= |fields|
  {
    if i == 0 then 0 else RequiredBefore(fields, i - 1) + if fields[i - 1].h.Required? then 1 else 0
  }

  /** Every tracked required field was seen. */
  predicate AllSeen(fields: seq<Field>, seen: set<nat>) {
    forall i :: 0 <= i < |fields| && fields[i].h.Required? && RequiredBefore(fields, i) < MAX_REQUIRED ==> i in seen
  }

  /** pb_decode_noinit, from the middle of a message on. */
  function DecodeLoop(fields: seq<Field>, m: Message, seen: set<nat>, input: Bytes): (r: Option<Message>)
    requires |m| == |fields|
    ensures r.Some? ==> |r.value| == |fields|
    decreases |input|, 3
  {
    if input == [] then if AllSeen(fields, seen) then Some(m) else None
    else match ReadTag(input)
      case BadTag => None
      case EndOfMessage => if AllSeen(fields, seen) then Some(m) else None
      case TagRead(tag, wireType, rest) =>
        var i := Find(fields, tag);
        if i == |fields| then
          var r := SkipUnknown(fields, tag, wireType, rest);
          if r.None? then None else DecodeLoop(fields, m, seen, r.value)
        else
          var p := DecodeSlot(fields[i], m[i], wireType, rest);
          if p.Failed? then None
          else DecodeLoop(fields, Store(fields, m, i, p.value), if fields[i].h.Required? then seen + {i} else seen,
            p.rest)
  }

  /** pb_decode. */
  function Decoded(fields: seq<Field>, input: Bytes): Option<Message> {
    DecodeLoop(fields, Defaults(fields), {}, input)
  }
}
