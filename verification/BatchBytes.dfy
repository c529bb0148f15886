/** The bytes of a write batch, as written to the log and replayed from it (db/write_batch.cc). */
module BatchBytes {
  import opened Coding

  const HEADER: nat := 12

  datatype Op = Put(key: Bytes, value: Bytes) | Delete(key: Bytes)

  datatype Status = Ok | Corruption

  // ------------------------------------------------------------------ layout

  predicate Fits(op: Op) {
    |op.key| < WORD && (op.Put? ==> |op.value| < WORD)
  }

  function EncodeOp(op: Op): (b: Bytes)
    ensures |b| > 0
  {
    match op
    case Put(key, value) => [1] + Prefixed(key) + Prefixed(value)
    case Delete(key) => [0] + Prefixed(key)
  }

  function EncodeOps(ops: seq<Op>): Bytes {
    if ops == [] then [] else EncodeOps(ops[..|ops| - 1]) + EncodeOp(ops[|ops| - 1])
  }

  /** A batch: its sequence number, its count in 32 bits, and its operations. */
  function Image(seqno: nat, ops: seq<Op>): (rep: Bytes)
    requires seqno < LONG
    ensures |rep| >= HEADER
  {
    Fixed64(seqno) + Fixed32(|ops| % WORD) + EncodeOps(ops)
  }

  function Sequence(rep: Bytes): nat
    requires |rep| >= HEADER
  {
    DecodeFixed64(rep)
  }

  function Count(rep: Bytes): nat
    requires |rep| >= HEADER
  {
    DecodeFixed32(rep[8..])
  }

  // ------------------------------------------------------------------ reading

  function ParseOp(input: Bytes): (p: Parsed<Op>)
    requires input != []
    ensures p.Parsed? ==> |p.rest| < |input|
  {
    ReadersTake(input[1..]);
    var key := GetPrefixed(input[1..]);
    if input[0] > 1 || key.Failed? then Failed
    else if input[0] == 0 then Parsed(Delete(key.value), key.rest)
    else
      ReadersTake(key.rest);
      var value := GetPrefixed(key.rest);
      if value.Failed? then Failed else Parsed(Put(key.value, value.value), value.rest)
  }

  /** The operations handed to the handler, and whether the input ended with one. */
  function ParseOps(input: Bytes): (seq<Op>, bool)
    decreases |input|
  {
    if input == [] then ([], true)
    else
      var p := ParseOp(input);
      if p.Failed? then ([], false)
      else
        var (more, ok) := ParseOps(p.rest);
        ([p.value] + more, ok)
  }

  /** WriteBatch::Iterate, for any contents. */
  function Iterated(rep: Bytes): (seq<Op>, Status) {
    if |rep| < HEADER then ([], Corruption)
    else
      var (ops, ok) := ParseOps(rep[HEADER..]);
      (ops, if ok && |ops| % WORD == Count(rep) then Ok else Corruption)
  }

  lemma OpReads(op: Op, tail: Bytes)
    requires Fits(op)
    ensures ParseOp(EncodeOp(op) + tail) == Parsed(op, tail)
  {
    hide GetPrefixed, Prefixed;
    var input := EncodeOp(op) + tail;
    match op
    case Put(key, value) =>
      assert input[1..] == Prefixed(key) + (Prefixed(value) + tail);
      PrefixedRoundTrip(key, Prefixed(value) + tail);
      PrefixedRoundTrip(value, tail);
    case Delete(key) =>
      assert input[1..] == Prefixed(key) + tail;
      PrefixedRoundTrip(key, tail);
  }

  lemma {:induction false} EncodeOpsConcat(a: seq<Op>, b: seq<Op>)
    ensures EncodeOps(a + b) == EncodeOps(a) + EncodeOps(b)
  {
    hide EncodeOp;
    if b == [] {
      assert a + b == a && EncodeOps(a) + [] == EncodeOps(a);
    } else {
      var n := |b| - 1;
      EncodeOpsConcat(a, b[..n]);
      EncodeOpsLast(a + b);
      EncodeOpsLast(b);
      hide EncodeOps;
      assert (a + b)[..|a + b| - 1] == a + b[..n] && (a + b)[|a + b| - 1] == b[n];
      Regroup3(EncodeOps(a), EncodeOps(b[..n]), EncodeOp(b[n]));
    }
  }

  lemma EncodeOpsLast(ops: seq<Op>)
    requires ops != []
    ensures EncodeOps(ops) == EncodeOps(ops[..|ops| - 1]) + EncodeOp(ops[|ops| - 1])
  {
  }

  lemma Regroup3(a: Bytes, b: Bytes, c: Bytes)
    ensures a + (b + c) == (a + b) + c
  {
  }

  lemma {:induction false} OpsRead(ops: seq<Op>)
    requires forall op :: op in ops ==> Fits(op)
    ensures ParseOps(EncodeOps(ops)) == (ops, true)
  {
    if ops != [] {
      hide EncodeOp, ParseOp, Fits;
      assert [ops[0]] + ops[1..] == ops;
      EncodeOpsConcat([ops[0]], ops[1..]);
      OneOp(ops[0]);
      OpReads(ops[0], EncodeOps(ops[1..]));
      OpsRead(ops[1..]);
    }
  }

  lemma OneOp(op: Op)
    ensures EncodeOps([op]) == EncodeOp(op)
  {
    assert [op][..0] == [] && EncodeOps([]) == [];
  }

  lemma HeaderReads(seqno: nat, count: nat, body: Bytes)
    requires seqno < LONG && count < WORD
    ensures var rep := Fixed64(seqno) + Fixed32(count) + body;
            Sequence(rep) == seqno && Count(rep) == count && rep[HEADER..] == body && rep[..8] == Fixed64(seqno)
  {
    hide Fixed64, Fixed32, DecodeFixed64, DecodeFixed32;
    Parts(Fixed64(seqno), Fixed32(count), body);
    Fixed64RoundTrip(seqno, Fixed32(count) + body);
    DecodesPrefix(Fixed32(count), body);
    Fixed32RoundTrip(count);
  }

  lemma ImageParts(seqno: nat, ops: seq<Op>)
    requires seqno < LONG
    ensures var rep := Image(seqno, ops);
            && Sequence(rep) == seqno && Count(rep) == |ops| % WORD && rep[HEADER..] == EncodeOps(ops)
            && rep[..8] == Fixed64(seqno)
  {
    hide Fixed64, Fixed32, EncodeOps, Sequence, Count;
    HeaderReads(seqno, |ops| % WORD, EncodeOps(ops));
  }

  lemma Parts(a: Bytes, b: Bytes, c: Bytes)
    requires |a| == 8 && |b| == 4
    ensures var r := a + b + c; r == a + (b + c) && r[..8] == a && r[8..] == b + c && r[12..] == c
  {
  }

  /** A batch read back yields exactly its operations. */
  lemma BatchReads(seqno: nat, ops: seq<Op>)
    requires seqno < LONG && forall op :: op in ops ==> Fits(op)
    ensures Iterated(Image(seqno, ops)) == (ops, Ok) && Sequence(Image(seqno, ops)) == seqno
  {
    hide Image, EncodeOps, ParseOps, Count, Sequence, Fits;
    ImageParts(seqno, ops);
    OpsRead(ops);
  }

  /** A batch whose header gives any count is rejected exactly when that count is wrong, though its operations
      have been handed over by then. */
  lemma WrongCountIsCorrupt(seqno: nat, count: nat, ops: seq<Op>)
    requires seqno < LONG && count < WORD && forall op :: op in ops ==> Fits(op)
    ensures Iterated(Fixed64(seqno) + Fixed32(count) + EncodeOps(ops)) ==
            (ops, if count == |ops| % WORD then Ok else Corruption)
  {
    hide Fixed64, Fixed32, DecodeFixed64, DecodeFixed32, EncodeOps, ParseOps, Count, Fits;
    HeaderReads(seqno, count, EncodeOps(ops));
    OpsRead(ops);
  }

  // ------------------------------------------------------------------ the class

  class WriteBatch {
    var rep: Bytes
    ghost var seqno: nat
    ghost var ops: seq<Op>

    ghost predicate Valid()
      reads this
    {
      seqno < LONG && rep == Image(seqno, ops)
    }

    constructor ()
      ensures Valid() && seqno == 0 && ops == []
    {
      rep := Fixed64(0) + Fixed32(0);
      seqno, ops := 0, [];
      EmptyImage();
    }

    method SetCount(n: nat)
      requires |rep| >= HEADER
      modifies this`rep
      ensures rep == old(rep)[..8] + Fixed32(n % WORD) + old(rep)[12..]
    {
      rep := rep[..8] + Fixed32(n % WORD) + rep[12..];
    }

    method SetSequence(s: nat)
      requires Valid() && s < LONG
      modifies this`rep, this`seqno
      ensures Valid() && seqno == s && ops == old(ops)
    {
      hide Fixed64, Fixed32, EncodeOps;
      rep := Fixed64(s) + rep[8..];
      seqno := s;
      assert Image(s, ops) == Fixed64(s) + (Fixed32(|ops| % WORD) + EncodeOps(ops));
    }

    method Put(key: Bytes, value: Bytes)
      requires Valid() && Fits(Op.Put(key, value))
      modifies this
      ensures Valid() && seqno == old(seqno) && ops == old(ops) + [Op.Put(key, value)]
    {
      hide Image, Prefixed, Count, Fixed32;
      ImageGrows(seqno, ops, Op.Put(key, value));
      SetCount(Count(rep) + 1);
      Regroup4(rep, [1], Prefixed(key), Prefixed(value));
      rep := rep + [1];
      rep := rep + Prefixed(key);
      rep := rep + Prefixed(value);
      ops := ops + [Op.Put(key, value)];
    }

    method Delete(key: Bytes)
      requires Valid() && Fits(Op.Delete(key))
      modifies this
      ensures Valid() && seqno == old(seqno) && ops == old(ops) + [Op.Delete(key)]
    {
      hide Image, Prefixed, Count, Fixed32;
      ImageGrows(seqno, ops, Op.Delete(key));
      SetCount(Count(rep) + 1);
      Regroup4(rep, [0], Prefixed(key), []);
      rep := rep + [0];
      rep := rep + Prefixed(key);
      ops := ops + [Op.Delete(key)];
    }

    method Append(source: WriteBatch)
      requires Valid() && source.Valid()
      modifies this
      ensures Valid() && seqno == old(seqno) && ops == old(ops) + old(source.ops)
    {
      hide Image;
      ImageAppends(seqno, ops, source.seqno, source.ops);
      ImageParts(seqno, ops);
      ImageParts(source.seqno, source.ops);
      var more, count := source.rep[HEADER..], Count(source.rep);
      SetCount(Count(rep) + count);
      rep := rep + more;
      ops := ops + source.ops;
    }

    /** Hand the operations over one by one. */
    method Iterate() returns (handed: seq<Op>, status: Status)
      ensures (handed, status) == Iterated(rep)
    {
      hide ParseOp;
      handed := [];
      if |rep| < HEADER {
        return handed, Corruption;
      }
      var input := rep[HEADER..];
      assert [] + ParseOps(input).0 == ParseOps(input).0;
      while input != []
        invariant ParseOps(rep[HEADER..]) == (handed + ParseOps(input).0, ParseOps(input).1)
        decreases |input|
      {
        var p := ParseOp(input);
        if p.Failed? {
          assert handed + [] == handed;
          return handed, Corruption;
        }
        assert handed + ([p.value] + ParseOps(p.rest).0) == handed + [p.value] + ParseOps(p.rest).0;
        handed := handed + [p.value];
        input := p.rest;
      }
      assert handed + [] == handed;
      status := if |handed| % WORD == Count(rep) then Ok else Corruption;
    }
  }

  lemma EmptyImage()
    ensures Image(0, []) == Fixed64(0) + Fixed32(0)
  {
    hide Fixed64, Fixed32;
    assert EncodeOps([]) == [];
  }

  lemma ImageAppends(seqno: nat, a: seq<Op>, other: nat, b: seq<Op>)
    requires seqno < LONG && other < LONG
    ensures Image(seqno, a + b) ==
            Image(seqno, a)[..8] + Fixed32((Count(Image(seqno, a)) + Count(Image(other, b))) % WORD) +
              Image(seqno, a)[12..] + EncodeOps(b)
  {
    hide Fixed64, Fixed32, EncodeOps, DecodeFixed32;
    ImageParts(seqno, a);
    ImageParts(other, b);
    EncodeOpsConcat(a, b);
    CountsAdd(|a|, |b|);
    Regroup4(Fixed64(seqno), Fixed32(|a + b| % WORD), EncodeOps(a), EncodeOps(b));
    Parts(Fixed64(seqno), Fixed32(|a| % WORD), EncodeOps(a));
  }

  lemma CountsAdd(a: nat, b: nat)
    ensures (a % WORD + b % WORD) % WORD == (a + b) % WORD
  {
  }

  lemma Regroup4(a: Bytes, b: Bytes, c: Bytes, d: Bytes)
    ensures a + b + (c + d) == a + b + c + d == a + (b + c + d) && a + (b + c) == a + b + c
  {
  }

  lemma ImageGrows(seqno: nat, ops: seq<Op>, op: Op)
    requires seqno < LONG
    ensures Image(seqno, ops + [op]) ==
            Image(seqno, ops)[..8] + Fixed32((Count(Image(seqno, ops)) + 1) % WORD) + Image(seqno, ops)[12..] +
              EncodeOp(op)
  {
    hide Image, Fixed32, EncodeOps, EncodeOp, Count;
    ImageAppends(seqno, ops, 0, [op]);
    ImageParts(0, [op]);
    OneOp(op);
  }
}
