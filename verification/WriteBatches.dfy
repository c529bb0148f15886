/** Write batches (db/write_batch.cc): the operations of a batch take consecutive sequence numbers. */
module WriteBatches {
  import opened Keys

  datatype Op = Op(typ: ValueType, user: UserKey, value: string)

  function EntryOf(op: Op, seqno: nat): Entry {
    Entry(IKey(op.user, seqno, op.typ), op.value)
  }

  /** The entries a batch becomes when its sequence number is `start`. */
  function Numbered(start: nat, ops: seq<Op>): (es: seq<Entry>)
    ensures |es| == |ops|
    ensures forall i :: 0 <= i < |ops| ==> es[i] == EntryOf(ops[i], start + i)
  {
    seq(|ops|, i requires 0 <= i < |ops| => EntryOf(ops[i], start + i))
  }

  /** Appending batches (WriteBatchInternal::Append) appends their entries. */
  lemma NumberedConcat(start: nat, a: seq<Op>, b: seq<Op>)
    ensures Numbered(start, a + b) == Numbered(start, a) + Numbered(start + |a|, b)
  {
  }

  lemma NumberedLast(start: nat, ops: seq<Op>)
    requires ops != []
    ensures var n := |ops| - 1; Numbered(start, ops) == Numbered(start, ops[..n]) + [EntryOf(ops[n], start + n)]
  {
  }

  lemma NothingNumbered(start: nat)
    ensures Numbered(start, []) == []
  {
  }
}
