/** Fields that the reader has no descriptor for (pb_decode.c pb_skip_field): a message written with more fields than
    the
    reader knows decodes to the fields it knows. */
module PbEvolution {
  import opened Coding
  import opened Keys
  import opened Pb
  import opened PbDecode
  import opened PbRoundTrip
  import PbEncode

  // ------------------------------------------------------------------ skipping what was encoded

  lemma {:induction false} VarintIsSkipped(v: nat, tail: Bytes)
    ensures SkipVarint(Varint(v) + tail) == Some(tail)
  {
    VarintIs(v);
    var input := Varint(v) + tail;
    if v < 128 {
      assert input[1..] == tail;
    } else {
      assert input[1..] == Varint(v / 128) + tail;
      VarintIsSkipped(v / 128, tail);
    }
  }

  lemma PrefixedIsSkipped(b: Bytes, tail: Bytes)
    requires |b| < WORD
    ensures Skip(STRING, Prefixed(b) + tail) == Some(tail)
  {
    hide Varint, Varint32;
    assert Prefixed(b) + tail == Varint(|b|) + (b + tail);
    Varint32Reads(|b|, b + tail);
    assert (b + tail)[|b|..] == tail;
  }

  /** The encoded data of any type is skipped whole, by its wire type. */
  lemma DataIsSkipped(l: LType, v: Value, w: Bytes, tail: Bytes)
    requires Typed(l, v) && EncodeValue(l, v) == Some(w) && |w| < WORD
    ensures Skip(WireType(l), w + tail) == Some(tail)
  {
    hide Varint, Varint32, SkipVarint;
    if Packable(l) {
      NumbersAre(l, v);
      hide Fixed32, Fixed64, MessageTyped, EncodeMessage;
      if l.Fixed32T? || l.Fixed64T? {
        assert (w + tail)[|w|..] == tail;
      } else {
        VarintIsSkipped(WireNumber(l, v.n), tail);
      }
    } else if l.SubmessageT? {
      hide MessageTyped, EncodeMessage;
      PrefixedIsSkipped(EncodeMessage(l.fields, v.slots).value, tail);
    } else {
      PrefixedIsSkipped(v.b, tail);
    }
  }

  // ------------------------------------------------------------------ unknown fields

  predicate Unknown(fields: seq<Field>, tag: nat) {
    forall i :: 0 <= i < |fields| ==> fields[i].tag != tag
  }

  /** A field with a foreign tag leaves the struct and the required fields seen as they are. */
  lemma UnknownTagIsSkipped(fields: seq<Field>, a: Message, seen: set<nat>, tag: nat, wireType: nat, w: Bytes,
                            rest: Bytes)
    requires |a| == |fields| && Unknown(fields, tag) && 0 < tag < 0x2000_0000 && wireType < 8
    requires Skip(wireType, w + rest) == Some(rest)
    ensures DecodeLoop(fields, a, seen, Tag(wireType, tag) + (w + rest)) == DecodeLoop(fields, a, seen, rest)
  {
    hide Tag, ReadTag, Find, DecodeSlot, Store, AllSeen, Skip;
    TagReads(wireType, tag, w + rest);
    FindsNothing(fields, tag);
  }

  lemma FindsNothing(fields: seq<Field>, tag: nat)
    requires Unknown(fields, tag)
    ensures Find(fields, tag) == |fields|
  {
    hide Find;
  }

  /** A field inserted anywhere before the rest of a wire form changes nothing. */
  lemma UnknownFieldIsSkipped(fields: seq<Field>, a: Message, seen: set<nat>, f: Field, v: Value, w: Bytes, rest: Bytes)
    requires |a| == |fields| && Unknown(fields, f.tag) && 0 < f.tag < 0x2000_0000
    requires Typed(f.l, v) && Tagged(f, v) == Some(w) && |w| < WORD
    ensures DecodeLoop(fields, a, seen, w + rest) == DecodeLoop(fields, a, seen, rest)
  {
    hide Tag, Typed, EncodeValue, DecodeLoop, Skip, WireType;
    var e := EncodeValue(f.l, v).value;
    DataIsSkipped(f.l, v, e, rest);
    WireTypeFits(f.l);
    UnknownTagIsSkipped(fields, a, seen, f.tag, WireType(f.l), e, rest);
    assert w + rest == Tag(WireType(f.l), f.tag) + (e + rest);
  }

  lemma {:induction false} UnknownEntriesAreSkipped(
      fields: seq<Field>, a: Message, seen: set<nat>, f: Field, vs: seq<Value>, w: Bytes, rest: Bytes)
    requires |a| == |fields| && Unknown(fields, f.tag) && 0 < f.tag < 0x2000_0000
    requires AllTyped(f.l, vs) && EncodeEntries(f, vs) == Some(w) && |w| < WORD
    ensures DecodeLoop(fields, a, seen, w + rest) == DecodeLoop(fields, a, seen, rest)
    decreases |vs|
  {
    hide Typed, Tagged, DecodeLoop;
    if vs == [] {
      assert w + rest == rest;
    } else {
      var e, later := Tagged(f, vs[0]).value, EncodeEntries(f, vs[1..]).value;
      assert w + rest == e + (later + rest);
      UnknownFieldIsSkipped(fields, a, seen, f, vs[0], e, later + rest);
      UnknownEntriesAreSkipped(fields, a, seen, f, vs[1..], later, rest);
    }
  }

  /** All that is written for a slot, arrays included, is skipped. */
  lemma UnknownSlotIsSkipped(fields: seq<Field>, a: Message, seen: set<nat>, f: Field, s: Slot, w: Bytes, rest: Bytes)
    requires |a| == |fields| && Unknown(fields, f.tag) && FieldOk(f) && SlotTyped(f, s)
    requires EncodeSlot(f, s) == Some(w) && |w| < WORD
    ensures DecodeLoop(fields, a, seen, w + rest) == DecodeLoop(fields, a, seen, rest)
  {
    hide Typed, AllTyped, TypeOk, DecodeLoop, Tagged, EncodeEntries, Pack, Packable, Tag, Varint, Skip, IsDefault;
    if !Written(f, s) {
      UnwrittenIsNothing(f, s);
      assert w + rest == rest;
    } else if !f.h.Repeated? {
      UnknownFieldIsSkipped(fields, a, seen, f, s.v, w, rest);
    } else if Packable(f.l) {
      var b := Pack(f.l, s.vs);
      PrefixedIsSkipped(b, rest);
      UnknownTagIsSkipped(fields, a, seen, f.tag, STRING, Prefixed(b), rest);
      assert w + rest == Tag(STRING, f.tag) + (Prefixed(b) + rest);
    } else {
      UnknownEntriesAreSkipped(fields, a, seen, f, s.vs, w, rest);
    }
  }

  // ------------------------------------------------------------------ an older reader

  /** The part of a list that a reader knows. */
  function Known<T>(ts: seq<T>, mask: seq<bool>): (r: seq<T>)
    requires |mask| == |ts|
    ensures |r| <= |ts|
  {
    if ts == [] then [] else (if mask[0] then [ts[0]] else []) + Known(ts[1..], mask[1..])
  }

  lemma {:induction false} KnownIsPart(fields: seq<Field>, mask: seq<bool>, tag: nat)
    requires |mask| == |fields| && Unknown(fields, tag)
    ensures Unknown(Known(fields, mask), tag)
  {
    if fields != [] { KnownIsPart(fields[1..], mask[1..], tag); }
  }

  lemma {:induction false} KnownFieldsOk(fields: seq<Field>, mask: seq<bool>)
    requires FieldsOk(fields) && |mask| == |fields|
    ensures FieldsOk(Known(fields, mask))
  {
    hide FieldOk;
    if fields != [] {
      KnownFieldsOk(fields[1..], mask[1..]);
      var r := Known(fields, mask);
      if mask[0] {
        assert Unknown(fields[1..], fields[0].tag);
        KnownIsPart(fields[1..], mask[1..], fields[0].tag);
        assert r[1..] == Known(fields[1..], mask[1..]);
      } else {
        assert r == Known(fields[1..], mask[1..]);
      }
    }
  }

  /** A reader who knows no other present field of a oneof than the writer. */
  lemma {:induction false} KnownOthersAbsent(fields: seq<Field>, m: Message, mask: seq<bool>, h: HType)
    requires |fields| == |m| == |mask|
    requires forall j :: 0 <= j < |fields| && fields[j].h == h && m[j].One? ==> !m[j].present
    ensures |Known(fields, mask)| == |Known(m, mask)|
    ensures forall j :: 0 <= j < |Known(fields, mask)| && Known(fields, mask)[j].h == h && Known(m, mask)[j].One? ==>
              !Known(m, mask)[j].present
  {
    if fields != [] { KnownOthersAbsent(fields[1..], m[1..], mask[1..], h); }
  }

  lemma {:induction false} SameLengths(fields: seq<Field>, m: Message, mask: seq<bool>)
    requires |fields| == |m| == |mask|
    ensures |Known(fields, mask)| == |Known(m, mask)|
  {
    if fields != [] { SameLengths(fields[1..], m[1..], mask[1..]); }
  }

  lemma {:induction false} KnownTyped(fields: seq<Field>, m: Message, mask: seq<bool>)
    requires MessageTyped(fields, m) && |mask| == |fields|
    ensures MessageTyped(Known(fields, mask), Known(m, mask))
  {
    hide SlotTyped;
    SameLengths(fields, m, mask);
    if fields != [] {
      KnownTyped(fields[1..], m[1..], mask[1..]);
      var r, n := Known(fields, mask), Known(m, mask);
      if mask[0] {
        assert r[1..] == Known(fields[1..], mask[1..]) && n[1..] == Known(m[1..], mask[1..]);
        SameLengths(fields[1..], m[1..], mask[1..]);
        if fields[0].h.Oneof? && m[0].One? && m[0].present {
          KnownOthersAbsent(fields[1..], m[1..], mask[1..], fields[0].h);
        }
        assert OthersAbsent(r, n);
      } else {
        assert r == Known(fields[1..], mask[1..]) && n == Known(m[1..], mask[1..]);
      }
    }
  }

  lemma {:induction false} LeftOutIsUnknown(fields: seq<Field>, mask: seq<bool>, i: nat)
    requires FieldsOk(fields) && |mask| == |fields| && i < |fields| && !mask[i]
    ensures Unknown(Known(fields, mask), fields[i].tag)
  {
    hide FieldOk;
    var rest := Known(fields[1..], mask[1..]);
    if i == 0 {
      KnownIsPart(fields[1..], mask[1..], fields[0].tag);
      assert Known(fields, mask) == rest;
    } else {
      LeftOutIsUnknown(fields[1..], mask[1..], i - 1);
      TagsDiffer(fields, 0, i);
    }
  }

  lemma KnownStep<T>(ts: seq<T>, mask: seq<bool>, i: nat)
    requires |mask| == |ts| && i < |ts|
    ensures Known(ts[i..], mask[i..]) == (if mask[i] then [ts[i]] else []) + Known(ts[i + 1..], mask[i + 1..])
  {
    assert ts[i..][1..] == ts[i + 1..] && mask[i..][1..] == mask[i + 1..];
  }

  /** The reader's place in the list it knows. */
  ghost predicate At(fields: seq<Field>, m: Message, mask: seq<bool>, i: nat, j: nat)
    requires |fields| == |m| == |mask| && i <= |fields|
  {
    && j <= |Known(fields, mask)| == |Known(m, mask)|
    && Known(fields, mask)[j..] == Known(fields[i..], mask[i..])
    && Known(m, mask)[j..] == Known(m[i..], mask[i..])
  }

  lemma AtNext(fields: seq<Field>, m: Message, mask: seq<bool>, i: nat, j: nat)
    requires |fields| == |m| == |mask| && i < |fields| && At(fields, m, mask, i, j)
    ensures At(fields, m, mask, i + 1, if mask[i] then j + 1 else j)
    ensures mask[i] ==> j < |Known(fields, mask)| && Known(fields, mask)[j] == fields[i] && Known(m, mask)[j] == m[i]
  {
    KnownStep(fields, mask, i);
    KnownStep(m, mask, i);
    var sub, n := Known(fields, mask), Known(m, mask);
    if mask[i] {
      assert sub[j..][0] == fields[i] && sub[j..][1..] == sub[j + 1..];
      assert n[j..][0] == m[i] && n[j..][1..] == n[j + 1..];
    }
  }

  /** What the reader makes of the wire form from field `i` on, when it stands at the `j`-th field it knows. */
  lemma {:induction false} KnownFieldsRead(fields: seq<Field>, m: Message, mask: seq<bool>, i: nat, j: nat, w: Bytes)
    requires FieldsOk(fields) && MessageTyped(fields, m) && i <= |fields| == |m| == |mask| && At(fields, m, mask, i, j)
    requires MessageTyped(fields[i..], m[i..]) && EncodeMessage(fields[i..], m[i..]) == Some(w) && |w| < WORD
    requires var sub, n := Known(fields, mask), Known(m, mask);
             FieldsOk(sub) && MessageTyped(sub, n) && MessageTyped(sub[j..], n[j..])
    ensures var sub, n := Known(fields, mask), Known(m, mask);
            DecodeLoop(sub, Restored(sub, n, j), SeenBefore(sub, j), w) ==
            if MessageTerminated(sub[j..], n[j..]) then Some(NormalMessage(sub, n)) else None
    decreases |fields| - i
  {
    hide FieldsOk, MessageTyped, EncodeMessage, EncodeSlot, SlotTyped, FieldOk, DecodeLoop, MessageTerminated, Known;
    hide SlotTerminated, Written, NormalMessage, Restored, SeenBefore, Append, At;
    var sub, n := Known(fields, mask), Known(m, mask);
    if i == |fields| {
      assert fields[i..] == [] && m[i..] == [];
      NothingLeft(fields, m, mask, j);
      PbEncode.NoFields();
      AllRead(sub, n);
    } else {
      PbEncode.MessageStep(fields, m, i);
      AppendParts(EncodeSlot(fields[i], m[i]), EncodeMessage(fields[i + 1..], m[i + 1..]), w);
      var e, later := EncodeSlot(fields[i], m[i]).value, EncodeMessage(fields[i + 1..], m[i + 1..]).value;
      AtNext(fields, m, mask, i, j);
      if mask[i] {
        KnownFieldReads(fields, m, mask, i, j, e, later);
      } else {
        KnownFieldsRead(fields, m, mask, i + 1, j, later);
        LeftOutIsUnknown(fields, mask, i);
        UnknownSlotIsSkipped(sub, Restored(sub, n, j), SeenBefore(sub, j), fields[i], m[i], e, later);
      }
    }
  }

  lemma NothingLeft(fields: seq<Field>, m: Message, mask: seq<bool>, j: nat)
    requires |fields| == |m| == |mask| && At(fields, m, mask, |fields|, j)
    ensures j == |Known(fields, mask)| == |Known(m, mask)|
    ensures Known(fields, mask)[j..] == [] && Known(m, mask)[j..] == []
  {
  }

  /** A field the reader knows, and what comes after it. */
  lemma {:induction false} KnownFieldReads(fields: seq<Field>, m: Message, mask: seq<bool>, i: nat, j: nat, e: Bytes,
                                           later: Bytes)
    requires FieldsOk(fields) && MessageTyped(fields, m) && i < |fields| == |m| == |mask| && mask[i]
    requires At(fields, m, mask, i + 1, j + 1) && j < |Known(fields, mask)| == |Known(m, mask)|
    requires Known(fields, mask)[j] == fields[i] && Known(m, mask)[j] == m[i]
    requires SlotTyped(fields[i], m[i]) && EncodeSlot(fields[i], m[i]) == Some(e) && |e| + |later| < WORD
    requires MessageTyped(fields[i + 1..], m[i + 1..]) && EncodeMessage(fields[i + 1..], m[i + 1..]) == Some(later)
    requires var sub, n := Known(fields, mask), Known(m, mask);
             FieldsOk(sub) && MessageTyped(sub, n) && MessageTyped(sub[j..], n[j..])
    ensures var sub, n := Known(fields, mask), Known(m, mask);
            DecodeLoop(sub, Restored(sub, n, j), SeenBefore(sub, j), e + later) ==
            if MessageTerminated(sub[j..], n[j..]) then Some(NormalMessage(sub, n)) else None
    decreases |fields| - i, 0
  {
    hide FieldsOk, MessageTyped, EncodeMessage, EncodeSlot, SlotTyped, FieldOk, DecodeLoop, MessageTerminated, Known;
    hide SlotTerminated, Written, NormalMessage, Restored, SeenBefore, At;
    var sub, n := Known(fields, mask), Known(m, mask);
    PbEncode.MessageStep(sub, n, j);
    TerminatedStep(sub, n, j);
    KnownFieldsRead(fields, m, mask, i + 1, j + 1, later);
    if Written(sub[j], n[j]) {
      SeenGrows(sub, j);
      SlotReads(sub, n, SeenBefore(sub, j), j, e, later);
    } else {
      UnwrittenIsNothing(sub[j], n[j]);
      UnwrittenRestored(sub, n, j);
      UnwrittenNotSeen(sub, n, j);
      assert e + later == later;
    }
  }

  /** A message written with fields that its reader does not know decodes to the fields it knows, under the condition on
      strings for these alone: unknown fields of every type, single, repeated or packed, are passed over whole. */
  lemma OlderReaderDecodes(fields: seq<Field>, m: Message, mask: seq<bool>, w: Bytes)
    requires FieldsOk(fields) && MessageTyped(fields, m) && |mask| == |fields|
    requires EncodeMessage(fields, m) == Some(w) && |w| < WORD
    ensures |m| == |fields| && MessageTyped(Known(fields, mask), Known(m, mask))
    ensures Decoded(Known(fields, mask), w) == Outcome(Known(fields, mask), Known(m, mask))
  {
    hide FieldsOk, MessageTyped, EncodeMessage, DecodeLoop, MessageTerminated, NormalMessage, Defaults, Known;
    PbEncode.MessageStep(fields, m, 0);
    var sub, n := Known(fields, mask), Known(m, mask);
    KnownFieldsOk(fields, mask);
    KnownTyped(fields, m, mask);
    PbEncode.MessageStep(sub, n, 0);
    assert fields[0..] == fields && m[0..] == m && mask[0..] == mask && sub[0..] == sub && n[0..] == n;
    assert Restored(sub, n, 0) == Defaults(sub) && SeenBefore(sub, 0) == {};
    KnownFieldsRead(fields, m, mask, 0, 0, w);
  }

  // ------------------------------------------------------------------ a newer reader

  lemma {:induction false} DefaultIsNormal(l: LType)
    requires Typed(l, DefaultValue(l))
    ensures NormalValue(l, DefaultValue(l)) == DefaultValue(l)
    decreases l, 0
  {
    if l.SubmessageT? { DefaultsAreNormal(l.fields); }
  }

  lemma {:induction false} DefaultSlotIsNormal(f: Field)
    requires SlotTyped(f, DefaultSlot(f))
    ensures NormalSlot(f, DefaultSlot(f)) == DefaultSlot(f)
    decreases f, 1
  {
    hide Typed, DefaultValue, NormalValue, IsDefault;
    if !f.h.Repeated? { DefaultIsNormal(f.l); }
  }

  lemma {:induction false} DefaultsAreNormal(fields: seq<Field>)
    requires MessageTyped(fields, Defaults(fields))
    ensures NormalMessage(fields, Defaults(fields)) == Defaults(fields)
    decreases fields, 2
  {
    hide SlotTyped, DefaultSlot, NormalSlot;
    if fields != [] {
      var d := Defaults(fields);
      assert d[0] == DefaultSlot(fields[0]) && d[1..] == Defaults(fields[1..]);
      DefaultSlotIsNormal(fields[0]);
      DefaultsAreNormal(fields[1..]);
    }
  }

  /** What the writer does not know is at its default. */
  ghost predicate MissingAreDefault(fields: seq<Field>, m: Message, mask: seq<bool>)
    requires |fields| == |m| == |mask|
  {
    forall i :: 0 <= i < |fields| && !mask[i] ==> m[i] == DefaultSlot(fields[i])
  }

  /** The required fields that were written before field `i`. */
  function SeenKnown(fields: seq<Field>, mask: seq<bool>, i: nat): set<nat>
    requires i <= |fields| == |mask|
  {
    set k: nat | k < i && fields[k].h.Required? && mask[k]
  }

  /** Some required field, among the first 64, was not written. */
  predicate RequiredMissing(fields: seq<Field>, mask: seq<bool>)
    requires |fields| == |mask|
  {
    exists i :: 0 <= i < |fields| && fields[i].h.Required? && !mask[i] && RequiredBefore(fields, i) < 64
  }

  lemma SeenDecides(fields: seq<Field>, mask: seq<bool>)
    requires |fields| == |mask|
    ensures AllSeen(fields, SeenKnown(fields, mask, |fields|)) <==> !RequiredMissing(fields, mask)
  {
    hide RequiredBefore;
    var seen := SeenKnown(fields, mask, |fields|);
    forall i: nat | i < |fields| && fields[i].h.Required? ensures i in seen <==> mask[i] {}
  }

  lemma MissingRestored(fields: seq<Field>, m: Message, i: nat)
    requires MessageTyped(fields, m) && i < |fields| == |m| && m[i] == DefaultSlot(fields[i])
    ensures Restored(fields, m, i) == Restored(fields, m, i + 1)
  {
    hide MessageTyped, SlotTyped, NormalSlot, NormalMessage, Defaults, DefaultSlot;
    NormalAt(fields, m, i);
    DefaultsAt(fields, i);
    DefaultSlotIsNormal(fields[i]);
  }

  lemma SeenKnownGrows(fields: seq<Field>, mask: seq<bool>, i: nat)
    requires i < |fields| == |mask|
    ensures SeenKnown(fields, mask, i + 1) ==
            if mask[i] then SeenToo(fields, SeenKnown(fields, mask, i), i) else SeenKnown(fields, mask, i)
  {
  }

  /** What a reader that knows all fields makes of a wire form with only some of them, from its field `i` and the
      writer's
      field `j` on. */
  lemma {:induction false} NewerFieldsRead(fields: seq<Field>, m: Message, mask: seq<bool>, i: nat, j: nat, w: Bytes)
    requires FieldsOk(fields) && MessageTyped(fields, m) && i <= |fields| == |m| == |mask| && At(fields, m, mask, i, j)
    requires MissingAreDefault(fields, m, mask)
    requires var sub, n := Known(fields, mask), Known(m, mask);
             FieldsOk(sub) && MessageTyped(sub, n) && MessageTyped(sub[j..], n[j..]) &&
             EncodeMessage(sub[j..], n[j..]) == Some(w) && |w| < WORD
    ensures var sub, n := Known(fields, mask), Known(m, mask);
            DecodeLoop(fields, Restored(fields, m, i), SeenKnown(fields, mask, i), w) ==
            if MessageTerminated(sub[j..], n[j..]) && !RequiredMissing(fields, mask) then Some(NormalMessage(fields, m))
            else None
    decreases |fields| - i, 1
  {
    hide FieldsOk, MessageTyped, EncodeMessage, EncodeSlot, SlotTyped, FieldOk, DecodeLoop, MessageTerminated, Known;
    hide SlotTerminated, Written, NormalMessage, Restored, SeenKnown, Append, At, DefaultSlot, RequiredMissing;
    if i == |fields| {
      NothingLeft(fields, m, mask, j);
      PbEncode.NoFields();
      NewerEnds(fields, m, mask);
    } else {
      AtNext(fields, m, mask, i, j);
      SeenKnownGrows(fields, mask, i);
      if mask[i] {
        NewerFieldReads(fields, m, mask, i, j, w);
      } else {
        MissingRestored(fields, m, i);
        NewerFieldsRead(fields, m, mask, i + 1, j, w);
      }
    }
  }

  lemma NewerEnds(fields: seq<Field>, m: Message, mask: seq<bool>)
    requires MessageTyped(fields, m) && |fields| == |m| == |mask|
    ensures DecodeLoop(fields, Restored(fields, m, |fields|), SeenKnown(fields, mask, |fields|), []) ==
            if RequiredMissing(fields, mask) then None else Some(NormalMessage(fields, m))
    ensures MessageTyped([], []) && MessageTerminated([], [])
  {
    hide NormalMessage, Defaults, AllSeen, RequiredMissing, SeenKnown;
    assert Restored(fields, m, |fields|) == NormalMessage(fields, m);
    SeenDecides(fields, mask);
  }

  lemma {:induction false} NewerFieldReads(fields: seq<Field>, m: Message, mask: seq<bool>, i: nat, j: nat, w: Bytes)
    requires FieldsOk(fields) && MessageTyped(fields, m) && i < |fields| == |m| == |mask| && mask[i]
    requires At(fields, m, mask, i + 1, j + 1) && MissingAreDefault(fields, m, mask)
    requires j < |Known(fields, mask)| == |Known(m, mask)|
    requires Known(fields, mask)[j] == fields[i] && Known(m, mask)[j] == m[i]
    requires var sub, n := Known(fields, mask), Known(m, mask);
             FieldsOk(sub) && MessageTyped(sub, n) && MessageTyped(sub[j..], n[j..]) &&
             EncodeMessage(sub[j..], n[j..]) == Some(w) && |w| < WORD
    ensures var sub, n := Known(fields, mask), Known(m, mask);
            DecodeLoop(fields, Restored(fields, m, i), SeenKnown(fields, mask, i), w) ==
            if MessageTerminated(sub[j..], n[j..]) && !RequiredMissing(fields, mask) then Some(NormalMessage(fields, m))
            else None
    decreases |fields| - i, 0
  {
    hide FieldsOk, MessageTyped, EncodeMessage, EncodeSlot, SlotTyped, FieldOk, DecodeLoop, MessageTerminated, Known;
    hide SlotTerminated, Written, NormalMessage, Restored, SeenKnown, Append, At, DefaultSlot, RequiredMissing;
    var sub, n := Known(fields, mask), Known(m, mask);
    PbEncode.MessageStep(fields, m, i);
    PbEncode.MessageStep(sub, n, j);
    TerminatedStep(sub, n, j);
    AppendParts(EncodeSlot(sub[j], n[j]), EncodeMessage(sub[j + 1..], n[j + 1..]), w);
    var e, later := EncodeSlot(sub[j], n[j]).value, EncodeMessage(sub[j + 1..], n[j + 1..]).value;
    SeenKnownGrows(fields, mask, i);
    NewerFieldsRead(fields, m, mask, i + 1, j + 1, later);
    if Written(fields[i], m[i]) {
      SlotReads(fields, m, SeenKnown(fields, mask, i), i, e, later);
    } else {
      UnwrittenIsNothing(fields[i], m[i]);
      UnwrittenRestored(fields, m, i);
      UnwrittenIsOptional(fields[i], m[i]);
      assert e + later == later;
    }
  }

  lemma UnwrittenIsOptional(f: Field, s: Slot)
    requires SlotTyped(f, s) && !Written(f, s)
    ensures !f.h.Required?
  {
    hide IsDefault;
  }

  /** A message written without some of the reader's fields decodes, with those at their defaults, unless one of them is
      required: the first 64 required fields are checked. */
  lemma NewerReaderDecodes(fields: seq<Field>, m: Message, mask: seq<bool>, w: Bytes)
    requires FieldsOk(fields) && MessageTyped(fields, m) && |m| == |fields| == |mask| &&
             MissingAreDefault(fields, m, mask)
    requires MessageTyped(Known(fields, mask), Known(m, mask))
    requires EncodeMessage(Known(fields, mask), Known(m, mask)) == Some(w) && |w| < WORD
    ensures Decoded(fields, w) ==
            if MessageTerminated(Known(fields, mask), Known(m, mask)) && !RequiredMissing(fields, mask)
            then Some(NormalMessage(fields, m)) else None
  {
    hide FieldsOk, MessageTyped, EncodeMessage, DecodeLoop, MessageTerminated, NormalMessage, Defaults, Known;
    hide RequiredMissing, MissingAreDefault;
    var sub, n := Known(fields, mask), Known(m, mask);
    KnownFieldsOk(fields, mask);
    PbEncode.MessageStep(fields, m, 0);
    PbEncode.MessageStep(sub, n, 0);
    assert fields[0..] == fields && m[0..] == m && mask[0..] == mask && sub[0..] == sub && n[0..] == n;
    assert Restored(fields, m, 0) == Defaults(fields) && SeenKnown(fields, mask, 0) == {};
    NewerFieldsRead(fields, m, mask, 0, 0, w);
  }
}
