/** The decoder's loops (pb_decode.c, pb_common.c), against what they make of any bytes. */
module PbDecoder {
  import opened Coding
  import opened Keys
  import opened Pb
  import opened PbDecode
  import PbRoundTrip

  // ------------------------------------------------------------------ numbers

  lemma RestUnfolds(input: Bytes, result: nat, k: nat)
    requires input != []
    ensures Varint32Rest(input, result, k) ==
            var byte, gathered := input[0], Gathered(result, input[0], k);
            if k >= 5 && byte % 128 != 0 && (result < 0x8000_0000 || byte != (if k < 9 then 255 else 1)) then Failed
            else if byte >= 128 then Varint32Rest(input[1..], gathered, k + 1)
            else if k == 4 && byte >= 16 then Failed
            else Parsed(gathered, input[1..])
  {
  }

  lemma GroupsAtByte(input: Bytes, n: nat)
    requires n > 0 && input != []
    ensures Groups(input, n) ==
            if input[0] < 128 then Parsed(input[0], input[1..])
            else var more := Groups(input[1..], n - 1);
                 if more.Failed? then more else Parsed(input[0] - 128 + 128 * more.value, more.rest)
  {
    hide Groups;
    GroupsStep(input, 0, n);
    assert input[0..] == input;
  }

  lemma VarintStarts(input: Bytes)
    ensures GetVarint64(input) == Continued(0, 0, Groups(input, 10), W64)
  {
    StartOf(input, W64);
    assert input[0..] == input;
  }

  lemma VarintEnds(input: Bytes, v: nat, k: nat)
    requires k <= 10 && (k == 10 || input == [])
    ensures Continued(v, k, Groups(input, 10 - k), W64) == Failed
  {
    EndOf(input, 10 - k);
  }

  lemma VarintStep(input: Bytes, v: nat, k: nat)
    requires k < 10 && input != []
    ensures Continued(v, k, Groups(input, 10 - k), W64) ==
            var byte := input[0];
            if byte < 128 then Parsed(Wrap(W64, v + Pow128(k) * byte), input[1..])
            else Continued(Wrap(W64, v + (byte - 128) * Pow128(k)), k + 1, Groups(input[1..], 9 - k), W64)
  {
    hide Groups, Pow128, Wrap;
    GroupsAtByte(input, 10 - k);
    if input[0] >= 128 { ContinuedStep(v, k, input[0], Groups(input[1..], 9 - k), W64); }
  }

  /** An input stream over a buffer: the bytes left. */
  class IStream {
    var rest: Bytes

    constructor (input: Bytes)
      ensures rest == input
    {
      rest := input;
    }

    /** pb_readbyte. */
    method ReadByte() returns (ok: bool, byte: Byte)
      modifies this
      ensures ok <==> old(rest) != []
      ensures if ok then byte == old(rest)[0] && rest == old(rest)[1..] else rest == old(rest)
    {
      ok, byte := rest != [], 0;
      if ok {
        byte := rest[0];
        rest := rest[1..];
      }
    }

    /** pb_read; without a buffer the bytes are skipped. */
    method Read(n: nat) returns (ok: bool, b: Bytes)
      modifies this
      ensures ok <==> n <= |old(rest)|
      ensures ok ==> b == old(rest)[..n] && rest == old(rest)[n..]
    {
      ok, b := n <= |rest|, [];
      if ok {
        b := rest[..n];
        rest := rest[n..];
      }
    }

    /** pb_decode_varint32. */
    method DecodeVarint32() returns (ok: bool, v: nat)
      modifies this
      ensures ok <==> Varint32(old(rest)).Parsed?
      ensures ok ==> Varint32(old(rest)) == Parsed(v, rest)
    {
      hide Varint32Rest, Gathered;
      ghost var input := rest;
      v := 0;
      var byte: Byte;
      ok, byte := ReadByte();
      if !ok || byte < 128 {
        v := byte;
        return;
      }
      v := byte - 128;
      var k := 1;
      while byte >= 128
        invariant ok && k >= 1
        invariant byte >= 128 ==> Varint32(input) == Varint32Rest(rest, v, k)
        invariant byte < 128 ==> Varint32(input) == if k == 5 && byte >= 16 then Failed else Parsed(v, rest)
        decreases |rest|, byte
      {
        ghost var before := rest;
        if before != [] { RestUnfolds(before, v, k); }
        ok, byte := ReadByte();
        if !ok {
          NothingRests(v, k);
          return;
        }
        if k >= 5 {
          var extension := if k < 9 then 255 else 1;
          if byte % 128 != 0 && (v < 0x8000_0000 || byte != extension) {
            return false, v;
          }
        }
        v := Gathered(v, byte, k);
        k := k + 1;
      }
      if k == 5 && byte >= 16 {
        // Only four bits of the fifth byte fit.
        ok := false;
      }
    }

    /** pb_decode_varint. */
    method DecodeVarint() returns (ok: bool, v: nat)
      modifies this
      ensures ok <==> GetVarint64(old(rest)).Parsed?
      ensures ok ==> GetVarint64(old(rest)) == Parsed(v, rest)
    {
      hide Groups, Pow128, Wrap, Continued, GetVarint64;
      ghost var input := rest;
      var k := 0;
      v := 0;
      VarintStarts(rest);
      while k < 10
        invariant k <= 10
        invariant GetVarint64(input) == Continued(v, k, Groups(rest, 10 - k), W64)
      {
        ghost var before := rest;
        var byte: Byte;
        ok, byte := ReadByte();
        if !ok {
          VarintEnds(rest, v, k);
          return;
        }
        VarintStep(before, v, k);
        if byte < 128 {
          v := Wrap(W64, v + Pow128(k) * byte);
          return;
        }
        v := Wrap(W64, v + (byte - 128) * Pow128(k));
        k := k + 1;
      }
      VarintEnds(rest, v, k);
      ok := false;
    }

    /** The decoders of bool, integers and fixed-width numbers. */
    method DecodeNum(l: LType) returns (ok: bool, n: int)
      requires Packable(l)
      modifies this
      ensures ok <==> DecodeNumber(l, old(rest)).Parsed?
      ensures ok ==> DecodeNumber(l, old(rest)) == Parsed(n, rest)
    {
      hide Varint32, GetVarint64, Coding.DecodeFixed32, Coding.DecodeFixed64, Narrow;
      n := 0;
      if l.Fixed32T? {
        ghost var input := rest;
        var b;
        ok, b := Read(4);
        if ok {
          n := Coding.DecodeFixed32(b);
          DecodesPrefix(b, input[4..]);
          assert b + input[4..] == input;
        }
      } else if l.Fixed64T? {
        ghost var input := rest;
        var b;
        ok, b := Read(8);
        if ok {
          n := Coding.DecodeFixed64(b);
          Fixed64OfPrefix(b, input[8..]);
          assert b + input[8..] == input;
        }
      } else {
        var v: nat;
        if l.BoolT? {
          ok, v := DecodeVarint32();
        } else {
          ok, v := DecodeVarint();
        }
        if ok {
          var narrow := Narrow(l, v);
          ok := narrow.Some?;
          if ok {
            n := narrow.value;
          }
        }
      }
    }

    /** pb_decode_tag: a zero, like the end of the stream, ends the message. */
    method DecodeTag() returns (t: TagRead)
      requires rest != []
      modifies this
      ensures t == ReadTag(old(rest)) && (t.TagRead? ==> rest == t.rest)
    {
      hide Varint32;
      var ok, v := DecodeVarint32();
      t := if !ok then BadTag else if v == 0 then EndOfMessage else TagRead(v / 8, v % 8, rest);
    }

    /** pb_skip_varint. */
    method SkipOverVarint() returns (ok: bool)
      modifies this
      ensures ok <==> SkipVarint(old(rest)).Some?
      ensures ok ==> SkipVarint(old(rest)) == Some(rest)
    {
      ghost var input := rest;
      var byte: Byte;
      ok, byte := ReadByte();
      while ok && byte >= 128
        invariant ok && byte >= 128 ==> SkipVarint(input) == SkipVarint(rest)
        invariant ok && byte < 128 ==> SkipVarint(input) == Some(rest)
        invariant !ok ==> SkipVarint(input) == None
        decreases |rest|, ok
      {
        ok, byte := ReadByte();
      }
    }

    /** pb_skip_field. */
    method SkipField(wireType: nat) returns (ok: bool)
      modifies this
      ensures ok <==> Skip(wireType, old(rest)).Some?
      ensures ok ==> Skip(wireType, old(rest)) == Some(rest)
    {
      hide Varint32, SkipVarint;
      var b: Bytes;
      if wireType == VARINT {
        ok := SkipOverVarint();
      } else if wireType == BITS64 {
        ok, b := Read(8);
      } else if wireType == STRING {
        var length;
        ok, length := DecodeVarint32();
        if ok {
          ok, b := Read(length);
        }
      } else if wireType == BITS32 {
        ok, b := Read(4);
      } else {
        ok := false;
      }
    }

    /** pb_make_string_substream; this stream goes on behind it. */
    method MakeSubstream() returns (ok: bool, sub: IStream)
      modifies this
      ensures fresh(sub) && (ok <==> Substream(old(rest)).Parsed?)
      ensures ok ==> Substream(old(rest)) == Parsed(sub.rest, rest)
    {
      hide Varint32;
      var size;
      ok, size := DecodeVarint32();
      sub := new IStream([]);
      if ok {
        ok := size <= |rest|;
        if ok {
          sub.rest := rest[..size];
          rest := rest[size..];
        }
      }
    }
  }

  lemma NothingRests(result: nat, k: nat)
    ensures Varint32Rest([], result, k) == Failed
  {
  }

  lemma Fixed64OfPrefix(b: Bytes, tail: Bytes)
    requires |b| == 8
    ensures Coding.DecodeFixed64(b + tail) == Coding.DecodeFixed64(b)
  {
    hide Coding.DecodeFixed32;
    DecodesPrefix(b[..4], b[4..] + tail);
    DecodesPrefix(b[..4], b[4..]);
    DecodesPrefix(b[4..], tail);
    assert b[..4] + (b[4..] + tail) == b + tail && b[..4] + b[4..] == b && (b + tail)[4..] == b[4..] + tail;
  }

  // ------------------------------------------------------------------ the field iterator

  lemma {:induction false} RequiredGrows(fields: seq<Field>, i: nat, j: nat)
    requires i <= j <= |fields|
    ensures RequiredBefore(fields, i) <= RequiredBefore(fields, j)
    ensures i < j && fields[i].h.Required? ==> RequiredBefore(fields, i) < RequiredBefore(fields, j)
  {
    if i < j { RequiredGrows(fields, i, j - 1); }
  }

  /** Walks round the descriptors; it never rests on the terminator of a list that is not empty. */
  class FieldIter {
    const fields: seq<Field>
    var pos: nat
    var requiredIndex: nat

    ghost predicate Valid()
      reads this
    {
      (pos < |fields| || pos == 0) && pos <= |fields| && requiredIndex == RequiredBefore(fields, pos)
    }

    /** pb_field_iter_begin. */
    constructor (fields: seq<Field>)
      ensures Valid() && this.fields == fields && pos == 0
    {
      this.fields, pos, requiredIndex := fields, 0, 0;
    }

    /** The tag at the position; zero at the terminator. */
    function Tag(): nat
      reads this
    {
      if pos < |fields| then fields[pos].tag else 0
    }

    /** pb_field_iter_next. */
    method Next() returns (more: bool)
      requires Valid()
      modifies this
      ensures Valid() && (more <==> old(pos) + 1 < |fields|) && pos == if more then old(pos) + 1 else 0
    {
      if fields == [] {
        return false;
      }
      if pos + 1 == |fields| {
        // Back to the beginning.
        pos, requiredIndex := 0, 0;
        return false;
      }
      if fields[pos].h.Required? {
        requiredIndex := requiredIndex + 1;
      }
      pos := pos + 1;
      return true;
    }

    /** pb_field_iter_find: once round from where the iterator is. */
    method Seek(tag: nat) returns (found: bool)
      requires Valid()
      modifies this
      ensures Valid()
      ensures fields != [] ==> (found <==> exists i :: 0 <= i < |fields| && fields[i].tag == tag)
      ensures fields == [] ==> (found <==> tag == 0)
      ensures found ==> Tag() == tag
    {
      var start := pos;
      if Tag() == tag {
        return true;
      }
      var more := Next();
      ghost var wrapped := !more;
      while pos != start
        invariant Valid() && start <= |fields| && (start < |fields| || start == 0)
        invariant Tag() != tag || pos != start
        invariant fields != [] ==> fields[start].tag != tag
        invariant fields == [] ==> tag != 0 && pos == start
        invariant if wrapped then pos <= start else pos > start
        invariant forall j :: start <= j < (if wrapped then |fields| else pos) ==> fields[j].tag != tag
        invariant wrapped ==> forall j :: 0 <= j < pos ==> fields[j].tag != tag
        decreases if wrapped then start - pos else start + |fields| - pos + 1
      {
        if Tag() == tag {
          return true;
        }
        more := Next();
        wrapped := wrapped || !more;
      }
      return false;
    }

    /** The number of required fields: the iterator goes on to the end of the list. */
    method CountRequired() returns (count: nat)
      requires Valid()
      modifies this
      ensures Valid() && count == RequiredBefore(fields, |fields|)
    {
      var last := pos;
      count := requiredIndex;
      var more := Next();
      while more
        invariant Valid() && (last < |fields| || (fields == [] && last == 0))
        invariant count == RequiredBefore(fields, last)
        invariant if more then pos == last + 1 < |fields| else pos == 0 && last + 1 >= |fields|
        decreases |fields| - last
      {
        count, last := requiredIndex, pos;
        more := Next();
      }
      if pos < |fields| && fields[last].h.Required? {
        count := count + 1;
      }
    }
  }

  lemma FoundIs(fields: seq<Field>, pos: nat, tag: nat)
    requires FieldsOk(fields) && pos < |fields| && fields[pos].tag == tag
    ensures Find(fields, tag) == pos
  {
    hide FieldsOk, Find;
    PbRoundTrip.FindsField(fields, pos);
  }

  // ------------------------------------------------------------------ the required fields that were seen

  /** The bits stand for the required fields that were seen, by their number among the required ones. */
  ghost predicate Tracks(fields: seq<Field>, seen: set<nat>, bits: seq<bool>) {
    |bits| == MAX_REQUIRED &&
    forall i: nat :: i < |fields| && fields[i].h.Required? && RequiredBefore(fields, i) < MAX_REQUIRED ==>
      (bits[RequiredBefore(fields, i)] <==> i in seen)
  }

  lemma TracksMore(fields: seq<Field>, seen: set<nat>, bits: seq<bool>, i: nat)
    requires Tracks(fields, seen, bits) && i < |fields| && fields[i].h.Required?
    ensures var r := RequiredBefore(fields, i);
            Tracks(fields, seen + {i}, if r < MAX_REQUIRED then bits[r := true] else bits)
  {
    hide RequiredBefore;
    forall j: nat | j < |fields| && fields[j].h.Required? && j != i
      ensures RequiredBefore(fields, j) != RequiredBefore(fields, i)
    {
      if i < j { RequiredGrows(fields, i, j); } else { RequiredGrows(fields, j, i); }
    }
  }

  lemma {:induction false} RequiredAt(fields: seq<Field>, n: nat, r: nat) returns (i: nat)
    requires n <= |fields| && r < RequiredBefore(fields, n)
    ensures i < n && fields[i].h.Required? && RequiredBefore(fields, i) == r
  {
    i := n - 1;
    if r < RequiredBefore(fields, n - 1) { i := RequiredAt(fields, n - 1, r); }
  }

  /** Looking at the first bits decides whether every tracked field was seen. */
  lemma BitsDecide(fields: seq<Field>, seen: set<nat>, bits: seq<bool>, count: nat)
    requires Tracks(fields, seen, bits)
    requires var all := RequiredBefore(fields, |fields|); count == if all > MAX_REQUIRED then MAX_REQUIRED else all
    ensures AllSeen(fields, seen) <==> forall r :: 0 <= r < count ==> bits[r]
  {
    hide RequiredBefore;
    if AllSeen(fields, seen) {
      forall r | 0 <= r < count ensures bits[r] { var i := RequiredAt(fields, |fields|, r); }
    }
    if forall r :: 0 <= r < count ==> bits[r] {
      forall i | 0 <= i < |fields| && fields[i].h.Required? && RequiredBefore(fields, i) < MAX_REQUIRED
        ensures i in seen
      {
        RequiredGrows(fields, i, |fields|);
      }
    }
  }

  lemma NothingSeen(fields: seq<Field>, bits: seq<bool>)
    requires |bits| == MAX_REQUIRED && forall r :: 0 <= r < |bits| ==> !bits[r]
    ensures Tracks(fields, {}, bits)
  {
    hide RequiredBefore;
  }

  method MarkSeen(iter: FieldIter, bits: array<bool>, ghost seen: set<nat>)
    requires iter.Valid() && iter.pos < |iter.fields| && iter.fields[iter.pos].h.Required?
    requires Tracks(iter.fields, seen, bits[..])
    modifies bits
    ensures Tracks(iter.fields, seen + {iter.pos}, bits[..])
  {
    TracksMore(iter.fields, seen, bits[..], iter.pos);
    hide Tracks, RequiredBefore;
    if iter.requiredIndex < MAX_REQUIRED {
      bits[iter.requiredIndex] := true;
      assert bits[..] == old(bits[..])[iter.requiredIndex := true];
    }
  }

  /** The check at the end of a message; the bits of fields_seen are an array here. */
  method CheckRequired(iter: FieldIter, bits: array<bool>, ghost seen: set<nat>) returns (ok: bool)
    requires iter.Valid() && Tracks(iter.fields, seen, bits[..])
    modifies iter
    ensures ok <==> AllSeen(iter.fields, seen)
  {
    hide AllSeen, RequiredBefore;
    var count := iter.CountRequired();
    if count > MAX_REQUIRED {
      count := MAX_REQUIRED;
    }
    BitsDecide(iter.fields, seen, bits[..], count);
    ok := true;
    for r := 0 to count
      invariant ok <==> forall q :: 0 <= q < r ==> bits[..][q]
    {
      if !bits[r] {
        ok := false;
      }
    }
  }

  // ------------------------------------------------------------------ values, fields and messages

  lemma LoopUnfolds(fields: seq<Field>, m: Message, seen: set<nat>, input: Bytes)
    requires |m| == |fields| && input != []
    ensures DecodeLoop(fields, m, seen, input) ==
            match ReadTag(input)
            case BadTag => None
            case EndOfMessage => if AllSeen(fields, seen) then Some(m) else None
            case TagRead(tag, wireType, rest) =>
              var i := Find(fields, tag);
              if i == |fields| then
                var r := SkipUnknown(fields, tag, wireType, rest);
                if r.None? then None else DecodeLoop(fields, m, seen, r.value)
              else
                var p := DecodeSlot(fields[i], m[i], wireType, rest);
                if p.Failed? then None
                else DecodeLoop(fields, Store(fields, m, i, p.value),
                  if fields[i].h.Required? then seen + {i} else seen, p.rest)
  {
    hide ReadTag, AllSeen, Find, SkipUnknown, DecodeSlot, Store;
  }

  lemma LoopEnds(fields: seq<Field>, m: Message, seen: set<nat>)
    requires |m| == |fields|
    ensures DecodeLoop(fields, m, seen, []) == if AllSeen(fields, seen) then Some(m) else None
  {
    hide AllSeen;
  }

  lemma NotFound(fields: seq<Field>, tag: nat)
    requires fields != [] ==> !exists i :: 0 <= i < |fields| && fields[i].tag == tag
    ensures Find(fields, tag) == |fields|
  {
  }

  lemma {:induction false} FieldAtOk(fields: seq<Field>, i: nat)
    requires FieldsOk(fields) && i < |fields|
    ensures TypeOk(fields[i].l)
  {
    if i > 0 { FieldAtOk(fields[1..], i - 1); }
  }

  /** A field with no descriptor is skipped; the terminator of an empty list is read as a bool. */
  method SkipFieldOrBool(s: IStream, fields: seq<Field>, tag: nat, found: bool, wireType: nat) returns (ok: bool)
    requires found <==> fields == [] && tag == 0
    modifies s
    ensures ok <==> SkipUnknown(fields, tag, wireType, old(s.rest)).Some?
    ensures ok ==> SkipUnknown(fields, tag, wireType, old(s.rest)) == Some(s.rest)
  {
    hide Varint32, Skip;
    if found {
      var v;
      ok, v := s.DecodeVarint32();
    } else {
      ok := s.SkipField(wireType);
    }
  }

  /** What a method that decodes promises. */
  ghost predicate Yields<T>(ok: bool, v: T, rest: Bytes, p: Parsed<T>) {
    (ok <==> p.Parsed?) && (ok ==> p == Parsed(v, rest))
  }

  /** The decoders of the types; `entry` that an array entry is being filled. */
  method DecodeData(s: IStream, l: LType, v0: Value, entry: bool) returns (ok: bool, v: Value)
    requires TypeOk(l)
    modifies s
    ensures Yields(ok, v, s.rest, DecodeValue(l, v0, entry, old(s.rest)))
    decreases |s.rest|, 1
  {
    hide DecodeNumber, Substream, DecodeLoop, FieldsOk;
    v := v0;
    if Packable(l) {
      var n;
      ok, n := s.DecodeNum(l);
      v := Num(n);
      return;
    }
    ghost var input := s.rest;
    var sub;
    ok, sub := s.MakeSubstream();
    if !ok {
      return;
    }
    match l
    case BytesT(max) =>
      ok, v := |sub.rest| <= max, Blob(sub.rest);
    case StringT(max) =>
      ok, v := |sub.rest| + 1 <= max, Blob(UntilZero(sub.rest));
    case FixedBytesT(n) =>
      if |sub.rest| == 0 {
        v := Blob(Zeros(n));
      } else {
        ok, v := |sub.rest| == n, Blob(sub.rest);
      }
    case SubmessageT(fields) =>
      // Array entries start from the defaults; the others were reset with the message they are in.
      var m := if !entry && v0.Msg? && |v0.slots| == |fields| then v0.slots else Defaults(fields);
      ok, m := DecodeNoinit(sub, fields, m);
      v := Msg(m);
    case _ =>
  }

  /** A packed array: numbers until the substream or the array is full. */
  method UnpackArray(sub: IStream, l: LType, vs0: seq<Value>, max: nat) returns (ok: bool, vs: seq<Value>)
    requires Packable(l)
    modifies sub
    ensures ok <==> Unpack(l, vs0, max, old(sub.rest)).Some?
    ensures ok ==> Unpack(l, vs0, max, old(sub.rest)) == Some(vs)
  {
    hide DecodeNumber;
    ghost var input := sub.rest;
    vs := vs0;
    while |sub.rest| > 0 && |vs| < max
      invariant Unpack(l, vs0, max, input) == Unpack(l, vs, max, sub.rest)
      decreases |sub.rest|
    {
      var n;
      ok, n := sub.DecodeNum(l);
      if !ok {
        return;
      }
      vs := vs + [Num(n)];
    }
    ok := |sub.rest| == 0;
  }

  /** decode_static_field. */
  method DecodeStaticField(s: IStream, f: Field, slot0: Slot, wireType: nat) returns (ok: bool, slot: Slot)
    requires TypeOk(f.l)
    modifies s
    ensures Yields(ok, slot, s.rest, DecodeSlot(f, slot0, wireType, old(s.rest)))
    decreases |s.rest|, 2
  {
    hide Substream, Unpack, DecodeValue, TypeOk, Packable;
    slot := slot0;
    if f.h.Repeated? {
      var vs := if slot0.Many? then slot0.vs else [];
      if wireType == STRING && Packable(f.l) {
        var sub;
        ok, sub := s.MakeSubstream();
        if !ok {
          return;
        }
        ok, vs := UnpackArray(sub, f.l, vs, f.h.max);
        slot := Many(vs);
        return;
      }
      if |vs| >= f.h.max {
        return false, slot;
      }
      var v;
      ok, v := DecodeData(s, f.l, DefaultValue(f.l), true);
      slot := Many(vs + [v]);
      return;
    }
    var v := if slot0.One? then slot0.v else DefaultValue(f.l);
    if f.h.Oneof? && f.l.SubmessageT? {
      v := DefaultValue(f.l);
    }
    ok, v := DecodeData(s, f.l, v, false);
    slot := One(true, v);
  }

  /** pb_decode_noinit. */
  method DecodeNoinit(s: IStream, fields: seq<Field>, m0: Message) returns (ok: bool, m: Message)
    requires FieldsOk(fields) && |m0| == |fields|
    modifies s
    ensures |m| == |fields|
    ensures ok <==> DecodeLoop(fields, m0, {}, old(s.rest)).Some?
    ensures ok ==> DecodeLoop(fields, m0, {}, old(s.rest)) == Some(m)
    decreases |s.rest|, 0
  {
    hide DecodeLoop, FieldsOk, AllSeen, Store, RequiredBefore, Tracks, DecodeSlot, ReadTag, Find, TypeOk;
    ghost var input, seen: set<nat> := s.rest, {};
    var bits := new bool[MAX_REQUIRED](_ => false);
    NothingSeen(fields, bits[..]);
    var iter := new FieldIter(fields);
    m := m0;
    var ended := false;
    while !ended && |s.rest| > 0
      invariant fresh(bits) && fresh(iter) && iter.Valid() && iter.fields == fields && bits.Length == MAX_REQUIRED
      invariant |m| == |fields| && (!ended ==> |s.rest| <= |input|) && Tracks(fields, seen, bits[..])
      invariant !ended ==> DecodeLoop(fields, m0, {}, input) == DecodeLoop(fields, m, seen, s.rest)
      invariant ended ==> DecodeLoop(fields, m0, {}, input) == if AllSeen(fields, seen) then Some(m) else None
      decreases if ended then 0 else |s.rest| + 1
    {
      ghost var before := s.rest;
      LoopUnfolds(fields, m, seen, before);
      var t := s.DecodeTag();
      if t.BadTag? {
        return false, m;
      }
      if t.EndOfMessage? {
        ended := true;
      } else {
        var found := iter.Seek(t.tag);
        if !found || fields == [] {
          NotFound(fields, t.tag);
          ok := SkipFieldOrBool(s, fields, t.tag, found, t.wireType);
          if !ok {
            return;
          }
        } else {
          FoundIs(fields, iter.pos, t.tag);
          FieldAtOk(fields, iter.pos);
          var f := fields[iter.pos];
          if f.h.Required? {
            MarkSeen(iter, bits, seen);
            seen := seen + {iter.pos};
          }
          var slot;
          ok, slot := DecodeStaticField(s, f, m[iter.pos], t.wireType);
          if !ok {
            return;
          }
          m := Store(fields, m, iter.pos, slot);
        }
      }
    }
    if !ended { LoopEnds(fields, m, seen); }
    ok := CheckRequired(iter, bits, seen);
  }

  /** pb_decode. */
  method Decode(s: IStream, fields: seq<Field>) returns (ok: bool, m: Message)
    requires FieldsOk(fields)
    modifies s
    ensures ok <==> Decoded(fields, old(s.rest)).Some?
    ensures ok ==> Decoded(fields, old(s.rest)) == Some(m)
  {
    hide DecodeLoop, FieldsOk, Defaults;
    ok, m := DecodeNoinit(s, fields, Defaults(fields));
  }
}
