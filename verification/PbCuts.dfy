/** Messages that are cut short (pb_decode.c): a stream that ends within a field fails, whether the field is known
    or not. */
module PbCuts {
  import opened Coding
  import opened Keys
  import opened Pb
  import opened PbDecode
  import PbRoundTrip
  import PbVarints
  import PbBadInputs

  lemma CutVarintFails(v: nat, k: nat)
    requires k < |Varint(v)|
    ensures Varint32(Varint(v)[..k]) == Failed
  {
    hide Varint, Varint32;
    PbVarints.VarintIsMarked(v);
    PbVarints.NoEndNoNumber(Varint(v)[..k]);
  }

  /** Data behind their length. */
  lemma CutPrefixedFails(b: Bytes, k: nat)
    requires |b| < WORD && k < |Prefixed(b)|
    ensures Substream(Prefixed(b)[..k]) == Failed && Skip(STRING, Prefixed(b)[..k]) == None
  {
    hide Varint, Varint32;
    var n := |Varint(|b|)|;
    if k < n {
      assert Prefixed(b)[..k] == Varint(|b|)[..k];
      CutVarintFails(|b|, k);
    } else {
      assert Prefixed(b)[..k] == Varint(|b|) + b[..k - n];
      PbBadInputs.LongLengthFails(|b|, b[..k - n]);
    }
  }

  /** The data of any type, cut short, are neither decoded nor skipped. */
  lemma CutDataFail(l: LType, v: Value, w: Bytes, v0: Value, entry: bool, k: nat)
    requires Typed(l, v) && TypeOk(l) && EncodeValue(l, v) == Some(w) && |w| < WORD && k < |w|
    ensures DecodeValue(l, v0, entry, w[..k]) == Failed && Skip(WireType(l), w[..k]) == None
  {
    hide Varint, Varint32, Skip, Substream, DecodeNumber, EncodeNumber, MessageTyped, EncodeMessage, TypeOk;
    if Packable(l) {
      NumbersAre(l, v);
      PbBadInputs.TruncatedNumberFails(l, v.n, k);
    } else {
      PrefixedLonger(l, v, w);
      CutPrefixedFails(Data(l, v), k);
    }
  }

  /** The bytes behind the length. */
  function Data(l: LType, v: Value): Bytes
    requires Typed(l, v) && !Packable(l) && EncodeValue(l, v).Some?
  {
    if l.SubmessageT? then EncodeMessage(l.fields, v.slots).value else v.b
  }

  lemma PrefixedLonger(l: LType, v: Value, w: Bytes)
    requires Typed(l, v) && !Packable(l) && EncodeValue(l, v) == Some(w)
    ensures w == Prefixed(Data(l, v)) && |Data(l, v)| <= |w| && WireType(l) == STRING
  {
    hide Varint, MessageTyped, EncodeMessage;
  }

  /** A field that takes data of the type fails with them. */
  lemma CutSlotFails(f: Field, s: Slot, v: Value, w: Bytes, k: nat)
    requires Typed(f.l, v) && TypeOk(f.l) && EncodeValue(f.l, v) == Some(w) && |w| < WORD && k < |w|
    ensures DecodeSlot(f, s, WireType(f.l), w[..k]) == Failed
  {
    hide DecodeValue, EncodeValue, Typed, TypeOk, DefaultValue, Skip;
    CutDataFail(f.l, v, w, DefaultValue(f.l), true, k);
    CutDataFail(f.l, v, w, DefaultValue(f.l), false, k);
    if s.One? { CutDataFail(f.l, v, w, s.v, false, k); }
    NotString(f.l);
  }

  lemma NotString(l: LType)
    ensures Packable(l) ==> WireType(l) != STRING
  {
  }

  /** A message that ends within a field fails: within its tag, or within its data, whether the reader knows the field,
      with the type it was written with, or does not. */
  lemma CutFieldFails(fields: seq<Field>, m: Message, seen: set<nat>, f: Field, v: Value, w: Bytes, k: nat)
    requires |m| == |fields| && 0 < f.tag < 0x2000_0000 && Typed(f.l, v) && TypeOk(f.l)
    requires Tagged(f, v) == Some(w) && |w| < WORD && 0 < k < |w|
    requires forall i :: 0 <= i < |fields| && fields[i].tag == f.tag ==> fields[i].l == f.l
    ensures DecodeLoop(fields, m, seen, w[..k]) == None
  {
    hide Varint, Varint32, Typed, TypeOk, EncodeValue, DecodeSlot, Skip, Store, AllSeen, WireType, Find;
    var t, e := Tag(WireType(f.l), f.tag), EncodeValue(f.l, v).value;
    if k < |t| {
      assert w[..k] == t[..k];
      CutVarintFails(f.tag * 8 + WireType(f.l), k);
    } else {
      var d := e[..k - |t|];
      assert w[..k] == t + d;
      WireTypeIs(f.l);
      PbRoundTrip.TagReads(WireType(f.l), f.tag, d);
      var i := Find(fields, f.tag);
      CutDataFail(f.l, v, e, DefaultValue(f.l), true, |d|);
      if i < |fields| {
        assert fields[i].l == f.l;
        CutSlotFails(fields[i], m[i], v, e, |d|);
      }
    }
  }

  lemma WireTypeIs(l: LType)
    ensures WireType(l) < 8
  {
  }
}
