/** What the readers of LevelDB's formats do with bytes that no writer produced: overlong numbers, cut and unknown
    records, damaged blocks. */
module BadInputs {
  import opened Coding
  import opened Keys
  import opened TableFormat
  import Blocks
  import BlockIters
  import BatchBytes
  import VersionEdits
  import FilterBlocks
  import Crc
  import Log

  // ------------------------------------------------------------------ numbers and strings

  lemma {:induction false} NoEndNoNumber(input: Bytes, n: nat)
    requires forall i :: 0 <= i < n && i < |input| ==> input[i] >= 128
    ensures Groups(input, n) == Failed
  {
    if n > 0 && input != [] { NoEndNoNumber(input[1..], n - 1); }
  }

  /** A number must end within five bytes, or ten if it may have 64 bits. */
  lemma OverlongNumberFails(input: Bytes)
    ensures |input| >= 5 && (forall i :: 0 <= i < 5 ==> input[i] >= 128) ==> GetVarint32(input) == Failed
    ensures |input| >= 10 && (forall i :: 0 <= i < 10 ==> input[i] >= 128) ==> GetVarint64(input) == Failed
  {
    hide Groups;
    if |input| >= 5 && forall i :: 0 <= i < 5 ==> input[i] >= 128 { NoEndNoNumber(input, 5); }
    if |input| >= 10 && forall i :: 0 <= i < 10 ==> input[i] >= 128 { NoEndNoNumber(input, 10); }
  }

  /** Bits beyond the 32 or 64 asked for are dropped. */
  lemma WideNumberWraps(v: nat, tail: Bytes)
    ensures v < 0x8_0000_0000 ==> GetVarint32(Varint(v) + tail) == Parsed(v % 0x1_0000_0000, tail)
    ensures v < 64 * LONG ==> GetVarint64(Varint(v) + tail) == Parsed(v % 0x1_0000_0000_0000_0000, tail)
  {
    hide Groups, Varint, Pow128;
    Pow128Of5();
    Pow128Of10();
    if v < 0x8_0000_0000 { GroupsRoundTrip(v, tail, 5); }
    if v < 64 * LONG { GroupsRoundTrip(v, tail, 10); }
  }

  /** A string that is cut short does not read. */
  lemma CutStringFails(s: Bytes, k: nat)
    requires |s| < WORD && k < |Prefixed(s)|
    ensures GetPrefixed(Prefixed(s)[..k]) == Failed
  {
    hide Groups, Varint;
    var n := |Varint(|s|)|;
    if k < n {
      assert Prefixed(s)[..k] == Varint(|s|)[..k];
      TruncatedVarintFails(|s|, k, 5);
    } else {
      assert Prefixed(s)[..k] == Varint(|s|) + s[..k - n];
      Varint32RoundTrip(|s|, s[..k - n]);
    }
  }

  // ------------------------------------------------------------------ batches

  lemma {:induction false} OpsThenGarbage(ops: seq<BatchBytes.Op>, x: Bytes)
    requires x != [] && BatchBytes.ParseOp(x) == Failed && forall op :: op in ops ==> BatchBytes.Fits(op)
    ensures BatchBytes.ParseOps(BatchBytes.EncodeOps(ops) + x) == (ops, false)
  {
    hide BatchBytes.ParseOp, BatchBytes.EncodeOp, BatchBytes.Fits;
    if ops == [] {
      assert BatchBytes.EncodeOps(ops) + x == x;
    } else {
      assert [ops[0]] + ops[1..] == ops;
      BatchBytes.EncodeOpsConcat([ops[0]], ops[1..]);
      BatchBytes.OneOp(ops[0]);
      var rest := BatchBytes.EncodeOps(ops[1..]) + x;
      assert BatchBytes.EncodeOps(ops) + x == BatchBytes.EncodeOp(ops[0]) + rest;
      BatchBytes.OpReads(ops[0], rest);
      OpsThenGarbage(ops[1..], x);
    }
  }

  /** Operations behind which something unreadable follows are handed over, and then the batch is found corrupted. */
  lemma GarbageIsCorrupt(seqno: nat, count: nat, ops: seq<BatchBytes.Op>, x: Bytes)
    requires seqno < LONG && count < WORD && forall op :: op in ops ==> BatchBytes.Fits(op)
    requires x != [] && BatchBytes.ParseOp(x) == Failed
    ensures BatchBytes.Iterated(Fixed64(seqno) + Fixed32(count) + (BatchBytes.EncodeOps(ops) + x)) ==
            (ops, BatchBytes.Corruption)
  {
    hide Fixed64, Fixed32, DecodeFixed64, DecodeFixed32, BatchBytes.EncodeOps, BatchBytes.ParseOps, BatchBytes.Count,
         BatchBytes.Fits;
    hide BatchBytes.ParseOp;
    BatchBytes.HeaderReads(seqno, count, BatchBytes.EncodeOps(ops) + x);
    OpsThenGarbage(ops, x);
  }

  /** Unreadable are an unknown tag and an operation cut short; a batch shorter than its header holds nothing. */
  lemma UnreadableOps(t: Byte, x: Bytes, op: BatchBytes.Op, k: nat, rep: Bytes)
    requires BatchBytes.Fits(op) && 0 < k < |BatchBytes.EncodeOp(op)|
    ensures t > 1 ==> BatchBytes.ParseOp([t] + x) == Failed
    ensures BatchBytes.ParseOp(BatchBytes.EncodeOp(op)[..k]) == Failed
    ensures |rep| < 12 ==> BatchBytes.Iterated(rep) == ([], BatchBytes.Corruption)
  {
    CutOpFails(op, k);
    hide GetPrefixed;
  }

  lemma CutOpFails(op: BatchBytes.Op, k: nat)
    requires BatchBytes.Fits(op) && 0 < k < |BatchBytes.EncodeOp(op)|
    ensures BatchBytes.ParseOp(BatchBytes.EncodeOp(op)[..k]) == Failed
  {
    hide GetPrefixed, Prefixed;
    var cut := BatchBytes.EncodeOp(op)[..k];
    var n := |Prefixed(op.key)|;
    if k - 1 < n {
      assert cut[1..] == Prefixed(op.key)[..k - 1];
      CutStringFails(op.key, k - 1);
    } else {
      assert cut[1..] == Prefixed(op.key) + Prefixed(op.value)[..k - 1 - n];
      PrefixedRoundTrip(op.key, Prefixed(op.value)[..k - 1 - n]);
      CutStringFails(op.value, k - 1 - n);
    }
  }

  // ------------------------------------------------------------------ version edits

  /** A field with an unknown tag ends the decoding with an error; what was decoded before stays. */
  lemma UnknownFieldFails(e: VersionEdits.Edit, tag: nat, x: Bytes)
    requires tag < WORD && (tag == 0 || tag == 8 || tag > 9)
    ensures VersionEdits.Decode(e, Varint(tag) + x) == (e, false)
  {
    hide GetVarint32, Varint;
    Varint32RoundTrip(tag, x);
  }

  // ------------------------------------------------------------------ blocks

  /** Three lengths of any size: the entry is refused when the key delta and the value, counted in 32 bits, exceed what
      is
      left of the block. */
  lemma EntryLengths(shared: nat, nonShared: nat, valueLength: nat, rest: Bytes)
    requires shared < WORD && nonShared < WORD && valueLength < WORD
    ensures Blocks.DecodeEntry(Varint(shared) + (Varint(nonShared) + (Varint(valueLength) + rest))) ==
            if (nonShared + valueLength) % 0x1_0000_0000 > |rest| then Failed
            else Parsed((shared, nonShared, valueLength), rest)
  {
    hide GetVarint32, Varint;
    Varint32RoundTrip(shared, Varint(nonShared) + (Varint(valueLength) + rest));
    Varint32RoundTrip(nonShared, Varint(valueLength) + rest);
    Varint32RoundTrip(valueLength, rest);
  }

  /** A block of which the last four bytes count its restart points: too many for its size make it bad, none make it
      empty. */
  lemma BlockOpens(x: Bytes, n: Word)
    ensures BlockIters.Open(x + Fixed32(n)) ==
            if 4 * n > |x| then BlockIters.BadBlock
            else if n == 0 then BlockIters.EmptyBlock
            else BlockIters.OpenBlock(|x| - 4 * n, n)
    ensures forall b: Bytes :: |b| < 4 ==> BlockIters.Open(b) == BlockIters.BadBlock
  {
    hide Fixed32, DecodeFixed32;
    Fixed32RoundTrip(n);
    assert (x + Fixed32(n))[|x|..] == Fixed32(n);
  }

  /** A block read with its checksum verified is refused when the checksum does not hold, whatever is wrong; a
      compressed
      block and one that leaves the file are refused in any case. */
  lemma DamagedBlockFails(file: Bytes, h: Handle, verify: bool)
    ensures h.offset + h.size + 5 > |file| ==> ReadBlock(file, h, verify) == None
    ensures h.offset + h.size + 5 <= |file| ==>
              var data := file[h.offset..h.offset + h.size + 5];
              && (verify && Crc.Number(Crc.Value(Log.Bits(data[..h.size + 1]))) !=
                    Crc.Unmask(DecodeFixed32(data[h.size + 1..])) ==>
                  ReadBlock(file, h, verify) == None)
              && (data[h.size] != 0 ==> ReadBlock(file, h, verify) == None)
              && (!verify && data[h.size] == 0 ==> ReadBlock(file, h, verify) == Some(data[..h.size]))
  {
    hide DecodeFixed32, Crc.Unmask, Crc.Number, Crc.Value, Log.Bits;
  }

  /** Without its magic number a file is no table. */
  lemma WrongMagicFails(b: Bytes)
    requires |b| == 48 && b[40..] != [0x57, 0xfb, 0x80, 0x8b, 0x24, 0x75, 0x47, 0xdb]
    ensures DecodeFooter(b) == None
  {
    hide DecodeHandle, DecodeFixed64;
    if DecodeFixed64(b[40..]) == MAGIC { EightBytes(b[40..]); }
  }

  lemma EightBytes(b: Bytes)
    requires |b| == 8 && DecodeFixed64(b) == MAGIC
    ensures b == [0x57, 0xfb, 0x80, 0x8b, 0x24, 0x75, 0x47, 0xdb]
  {
  }

  // ------------------------------------------------------------------ filter blocks

  /** A filter block that is too short, or of which the offset array would begin behind its end, denies nothing. */
  lemma MalformedFilterDeniesNothing(hash: Bytes -> Word, contents: Bytes, blockOffset: nat, key: Bytes)
    requires |contents| < 5 || DecodeFixed32(contents[|contents| - 5..]) > |contents| - 5
    ensures FilterBlocks.MayHold(hash, contents, blockOffset, key)
  {
    hide DecodeFixed32, FilterBlocks.Index;
  }
}
