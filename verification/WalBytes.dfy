/** The bytes of a write-ahead log after a crash, replayed into writes (db/db_impl.cc RecoverLogFile). */
module WalBytes {
  import opened Coding
  import opened Keys
  import opened Ranks
  import opened Log
  import opened LogReplay
  import BatchBytes
  import BadInputs
  import WriteBatches
  import InternalKeys

  /** A batch with the sequence number it was given. */
  datatype Batch = Batch(seqno: nat, ops: seq<BatchBytes.Op>)

  predicate Fits(b: Batch) {
    b.seqno < LONG && forall op :: op in b.ops ==> BatchBytes.Fits(op)
  }

  function ImageOf(b: Batch): Bytes
    requires Fits(b)
  {
    BatchBytes.Image(b.seqno, b.ops)
  }

  function Images(batches: seq<Batch>): (records: seq<Bytes>)
    requires forall b :: b in batches ==> Fits(b)
    ensures |records| == |batches|
  {
    seq(|batches|, i requires 0 <= i < |batches| => assert batches[i] in batches; ImageOf(batches[i]))
  }

  function ModelOp(op: BatchBytes.Op): WriteBatches.Op {
    match op
    case Put(key, value) => WriteBatches.Op(Value, KeyRank(key), InternalKeys.Text(value))
    case Delete(key) => WriteBatches.Op(Deletion, KeyRank(key), "")
  }

  function ModelOps(ops: seq<BatchBytes.Op>): seq<WriteBatches.Op> {
    seq(|ops|, i requires 0 <= i < |ops| => ModelOp(ops[i]))
  }

  /** The writes of a batch. */
  function EntriesOf(b: Batch): seq<Entry> {
    WriteBatches.Numbered(b.seqno, ModelOps(b.ops))
  }

  function AllEntries(batches: seq<Batch>): (es: seq<seq<Entry>>)
    ensures |es| == |batches|
  {
    seq(|batches|, i requires 0 <= i < |batches| => EntriesOf(batches[i]))
  }

  /** What replaying a record inserts: all that its batch hands over, whatever its status; records too
      short for a batch are skipped. */
  function Replayed(record: Bytes): seq<Entry> {
    if |record| < BatchBytes.HEADER then []
    else WriteBatches.Numbered(BatchBytes.Sequence(record), ModelOps(BatchBytes.Iterated(record).0))
  }

  function ReplayedAll(records: seq<Bytes>): (es: seq<seq<Entry>>)
    ensures |es| == |records|
  {
    seq(|records|, i requires 0 <= i < |records| => Replayed(records[i]))
  }

  lemma BatchReplays(b: Batch)
    requires Fits(b)
    ensures Replayed(ImageOf(b)) == EntriesOf(b)
  {
    hide BatchBytes.Image, BatchBytes.Iterated, BatchBytes.Sequence;
    BatchBytes.BatchReads(b.seqno, b.ops);
  }

  /** A record that no writer wrote: one too short for a batch is skipped, and of one whose operations become unreadable
      those before are inserted all the same. */
  lemma DamagedReplays(record: Bytes, b: Batch, count: nat, x: Bytes)
    requires Fits(b) && count < WORD && x != [] && BatchBytes.ParseOp(x) == Failed
    ensures |record| < 12 ==> Replayed(record) == []
    ensures Replayed(Fixed64(b.seqno) + Fixed32(count) + (BatchBytes.EncodeOps(b.ops) + x)) == EntriesOf(b)
  {
    hide Fixed64, Fixed32, BatchBytes.Iterated, BatchBytes.EncodeOps, BatchBytes.ParseOp, BatchBytes.Sequence,
         BatchBytes.Count;
    BadInputs.GarbageIsCorrupt(b.seqno, count, b.ops, x);
    BatchBytes.HeaderReads(b.seqno, count, BatchBytes.EncodeOps(b.ops) + x);
  }

  lemma ImagesReplay(batches: seq<Batch>)
    requires forall b :: b in batches ==> Fits(b)
    ensures ReplayedAll(Images(batches)) == AllEntries(batches)
  {
    hide Replayed, EntriesOf, ImageOf;
    forall i | 0 <= i < |batches| ensures Replayed(Images(batches)[i]) == EntriesOf(batches[i]) {
      assert batches[i] in batches;
      BatchReplays(batches[i]);
    }
  }

  lemma ImagesPrefix(batches: seq<Batch>, k: nat)
    requires k <= |batches| && forall b :: b in batches ==> Fits(b)
    ensures (forall b :: b in batches[..k] ==> Fits(b)) && Images(batches)[..k] == Images(batches[..k])
  {
  }

  /** A log of batches cut after `size` bytes replays exactly the writes of the batches that lie whole in
      it; batches that were synced lie whole in every cut a crash can make. */
  lemma CrashedLogReplays(batches: seq<Batch>, size: nat, synced: nat)
    requires forall b :: b in batches ==> Fits(b)
    requires size <= |LogFrom(0, Images(batches))| && synced <= |batches| &&
             |LogFrom(0, Images(batches)[..synced])| <= size
    ensures var k := LogReplay.Survivors(0, Images(batches), size);
            && synced <= k <= |batches|
            && ReplayedAll(ReadAll(LogFrom(0, Images(batches))[..size], 0, true).0) == AllEntries(batches[..k])
  {
    hide LogFrom, ReadAll, Replayed, EntriesOf, ImageOf, LogReplay.Survivors;
    var records := Images(batches);
    var file, k := LogFrom(0, records)[..size], LogReplay.Survivors(0, records, size);
    assert file[0..] == file;
    PrefixReads(file, 0, records, true);
    SyncedLieWhole(0, records, size, synced);
    ImagesPrefix(batches, k);
    ImagesReplay(batches[..k]);
  }

  lemma {:induction false} SyncedLieWhole(p: nat, records: seq<Bytes>, size: nat, synced: nat)
    requires synced <= |records| && p + |LogFrom(p, records[..synced])| <= size
    ensures synced <= LogReplay.Survivors(p, records, size)
    decreases |records|
  {
    hide Encode;
    if synced > 0 {
      assert records[..synced][0] == records[0] && records[..synced][1..] == records[1..][..synced - 1];
      SyncedLieWhole(p + |Encode(p, records[0], true)|, records[1..], size, synced - 1);
    }
  }

  // ------------------------------------------------------------------ the greatest sequence number

  /** The last number of a batch, in 64 bits. */
  function LastNumber(seqno: nat, count: nat): nat {
    (seqno + count + LONG - 1) % LONG
  }

  /** The last sequence number a record claims. */
  function LastOf(record: Bytes): nat
    requires |record| >= BatchBytes.HEADER
  {
    LastNumber(BatchBytes.Sequence(record), BatchBytes.Count(record))
  }

  /** Batches as the engine numbers them. */
  predicate Numberable(b: Batch) {
    Fits(b) && 1 <= b.seqno && b.seqno + |b.ops| <= LONG && |b.ops| < WORD
  }

  ghost predicate AllNumberable(batches: seq<Batch>)
    ensures AllNumberable(batches) ==> forall b :: b in batches ==> Fits(b)
  {
    forall b :: b in batches ==> Numberable(b)
  }

  /** The records of the file are these batches. */
  ghost predicate LogOf(file: Bytes, batches: seq<Batch>) {
    AllNumberable(batches) && ReadAll(file, 0, true).0 == Images(batches)
  }

  /** The greatest of `before` and the last sequence numbers of the batches. */
  ghost predicate IsGreatest(batches: seq<Batch>, before: nat, m: nat) {
    && before <= m
    && (forall b :: b in batches ==> b.seqno + |b.ops| - 1 <= m)
    && (m == before || exists b :: b in batches && m == b.seqno + |b.ops| - 1)
  }

  /** No write is numbered above `m`, and unless nothing is numbered above `before` some write is numbered `m`. */
  ghost predicate IsTop(writes: seq<seq<Entry>>, before: nat, m: nat) {
    && before <= m
    && (forall i, e :: 0 <= i < |writes| && e in writes[i] ==> e.ik.seqno <= m)
    && (m == before || exists i, e :: 0 <= i < |writes| && e in writes[i] && e.ik.seqno == m)
  }

  /** `m` is the greatest of `before` and what the records long enough for a batch claim. */
  ghost predicate Claimed(records: seq<Bytes>, before: nat, m: nat) {
    && before <= m
    && (forall r :: r in records && |r| >= BatchBytes.HEADER ==> LastOf(r) <= m)
    && (m == before || exists r :: r in records && |r| >= BatchBytes.HEADER && m == LastOf(r))
  }

  lemma LastNumberIs(seqno: nat, count: nat)
    requires 1 <= seqno && seqno + count <= LONG
    ensures LastNumber(seqno, count) == seqno + count - 1
  {
    var n: nat := seqno + count - 1;
    assert n < LONG && (n + LONG) % LONG == n;
  }

  lemma LastOfImage(b: Batch)
    requires Numberable(b)
    ensures LastOf(ImageOf(b)) == b.seqno + |b.ops| - 1
  {
    hide BatchBytes.Image, BatchBytes.Sequence, BatchBytes.Count, BatchBytes.Fits, LastNumber;
    BatchBytes.ImageParts(b.seqno, b.ops);
    LastNumberIs(b.seqno, |b.ops|);
    var count := |b.ops|;
    assert count % WORD == count;
  }

  lemma ClaimedIsGreatest(batches: seq<Batch>, before: nat, m: nat)
    requires AllNumberable(batches) && Claimed(Images(batches), before, m)
    ensures IsGreatest(batches, before, m)
  {
    hide LastOf, ImageOf;
    var records := Images(batches);
    forall b | b in batches ensures b.seqno + |b.ops| - 1 <= m {
      var i :| 0 <= i < |batches| && batches[i] == b;
      assert records[i] == ImageOf(b) && records[i] in records;
      LastOfImage(b);
      ImageIsLong(b);
    }
    if m != before {
      var r :| r in records && |r| >= BatchBytes.HEADER && m == LastOf(r);
      var i :| 0 <= i < |records| && records[i] == r;
      LastOfImage(batches[i]);
    }
  }

  lemma ImageIsLong(b: Batch)
    requires Fits(b)
    ensures |ImageOf(b)| >= BatchBytes.HEADER
  {
  }

  /** The writes of a batch take the numbers from its own on; the last one has the greatest. */
  lemma EntriesAreNumbered(b: Batch)
    ensures forall e :: e in EntriesOf(b) ==> e.ik.seqno <= b.seqno + |b.ops| - 1
    ensures b.ops != [] ==> exists e :: e in EntriesOf(b) && e.ik.seqno == b.seqno + |b.ops| - 1
  {
    hide ModelOp;
    if b.ops != [] { assert EntriesOf(b)[|b.ops| - 1] in EntriesOf(b); }
  }

  lemma GreatestIsTop(batches: seq<Batch>, before: nat, m: nat)
    requires IsGreatest(batches, before, m) && forall b :: b in batches ==> b.ops != []
    ensures IsTop(AllEntries(batches), before, m)
  {
    hide EntriesOf;
    var writes := AllEntries(batches);
    forall i, e: Entry | 0 <= i < |writes| && e in writes[i] ensures e.ik.seqno <= m {
      EntriesAreNumbered(batches[i]);
    }
    if m != before {
      var b :| b in batches && m == b.seqno + |b.ops| - 1;
      var i :| 0 <= i < |batches| && batches[i] == b;
      EntriesAreNumbered(b);
      assert writes[i] == EntriesOf(b);
    }
  }

  lemma BatchesDecide(file: Bytes, replayed: seq<seq<Entry>>, before: nat, m: nat, batches: seq<Batch>)
    requires replayed == ReplayedAll(ReadAll(file, 0, true).0) && Claimed(ReadAll(file, 0, true).0, before, m)
    requires LogOf(file, batches)
    ensures replayed == AllEntries(batches) && IsGreatest(batches, before, m)
    ensures (forall b :: b in batches ==> b.ops != []) ==> IsTop(replayed, before, m)
  {
    hide ReadAll, ReplayedAll, AllEntries, IsGreatest, IsTop, Claimed;
    ImagesReplay(batches);
    ClaimedIsGreatest(batches, before, m);
    if forall b :: b in batches ==> b.ops != [] { GreatestIsTop(batches, before, m); }
  }

  /** Read all records of a log and insert their writes; records too short for a batch are passed over. */
  method RecoverLogFile(file: Bytes, maxBefore: nat) returns (replayed: seq<seq<Entry>>, maxSequence: nat)
    ensures replayed == ReplayedAll(ReadAll(file, 0, true).0) &&
            Claimed(ReadAll(file, 0, true).0, maxBefore, maxSequence)
    ensures forall batches: seq<Batch> :: LogOf(file, batches) ==>
              replayed == AllEntries(batches) && IsGreatest(batches, maxBefore, maxSequence)
    ensures forall batches: seq<Batch> :: LogOf(file, batches) && (forall b :: b in batches ==> b.ops != []) ==>
              IsTop(replayed, maxBefore, maxSequence)
  {
    hide ReadAll, Replayed, LastOf;
    var records, drops := ReadEverything(file);
    replayed, maxSequence := [], maxBefore;
    for i := 0 to |records|
      invariant replayed == ReplayedAll(records)[..i] && Claimed(records[..i], maxBefore, maxSequence)
    {
      assert records[..i + 1] == records[..i] + [records[i]];
      replayed := replayed + [Replayed(records[i])];
      if |records[i]| >= BatchBytes.HEADER {
        var last := LastOf(records[i]);
        if last > maxSequence {
          maxSequence := last;
        }
      }
    }
    assert records[..|records|] == records;
    forall batches: seq<Batch> | LogOf(file, batches)
      ensures replayed == AllEntries(batches) && IsGreatest(batches, maxBefore, maxSequence)
      ensures (forall b :: b in batches ==> b.ops != []) ==> IsTop(replayed, maxBefore, maxSequence)
    {
      BatchesDecide(file, replayed, maxBefore, maxSequence, batches);
    }
  }
}
