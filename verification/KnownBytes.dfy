/** The formats byte by byte, on examples small enough to be read: the constants and field orders that a writer and a
    reader of this model only share. */
module KnownBytes {
  import opened Coding
  import opened Keys
  import Crc
  import Separators
  import InternalKeys
  import BatchBytes
  import VersionEdits
  import Blocks
  import Blooms
  import FilterBlocks
  import TableBuilds
  import TableFormat
  import Pb

  // ------------------------------------------------------------------ numbers and checksums

  lemma FixedNumbers()
    ensures Fixed32(0x0403_0201) == [1, 2, 3, 4] && Fixed32(0x0807_0605) == [5, 6, 7, 8]
  {
  }

  lemma LongNumber()
    ensures Fixed64(0x0807_0605_0403_0201) == [1, 2, 3, 4, 5, 6, 7, 8]
  {
    FixedNumbers();
    hide Fixed32;
  }

  lemma Varints()
    ensures Varint(1) == [1] && Varint(300) == [172, 2] && Prefixed([7, 8]) == [2, 7, 8]
  {
    assert Varint(2) == [2];
  }

  /** A masked checksum is the checksum rotated right by 15 bits, plus 0xa282ead8. */
  lemma Masks()
    ensures Crc.Mask(0) == 0xa282_ead8 && Crc.Mask(0x8000) == 0xa282_ead9 && Crc.Mask(1) == 0xa284_ead8
  {
  }

  /** The CRC32C of the one-letter string "a". */
  lemma ChecksumOfA()
    ensures Crc.Value([0x61]) == 0xc1d0_4330
  {
    assert [0x61 as bv8][..0] == [];
  }

  // ------------------------------------------------------------------ keys, batches, edits

  lemma InternalKey()
    ensures InternalKeys.Encoded(Separators.Key([7], 5 * 256 + 1)) == [7, 1, 5, 0, 0, 0, 0, 0, 0]
  {
  }

  lemma BatchOps()
    ensures BatchBytes.EncodeOps([BatchBytes.Put([1], [2]), BatchBytes.Delete([3])]) == [1, 1, 1, 1, 2, 0, 1, 3]
  {
    var a, b := BatchBytes.Put([1], [2]), BatchBytes.Delete([3]);
    assert [a, b][..1] == [a] && [a][..0] == [];
    assert BatchBytes.EncodeOp(a) == [1, 1, 1, 1, 2] && BatchBytes.EncodeOp(b) == [0, 1, 3];
    hide BatchBytes.EncodeOp;
    assert BatchBytes.EncodeOps([a]) == [] + BatchBytes.EncodeOp(a);
  }

  lemma Batch()
    ensures BatchBytes.Image(5, [BatchBytes.Put([1], [2]), BatchBytes.Delete([3])]) ==
            [5, 0, 0, 0, 0, 0, 0, 0, 2, 0, 0, 0, 1, 1, 1, 1, 2, 0, 1, 3]
  {
    BatchOps();
    assert Fixed64(5) == [5, 0, 0, 0, 0, 0, 0, 0] && Fixed32(2) == [2, 0, 0, 0];
    hide Fixed64, Fixed32, BatchBytes.EncodeOps;
  }

  lemma NumberFields()
    ensures VersionEdits.EncodeField(VersionEdits.LogNumber(10)) == [2, 10]
    ensures VersionEdits.EncodeField(VersionEdits.NextFileNumber(11)) == [3, 11]
    ensures VersionEdits.EncodeField(VersionEdits.LastSequence(12)) == [4, 12]
    ensures VersionEdits.EncodeField(VersionEdits.PrevLogNumber(16)) == [9, 16]
  {
  }

  lemma OtherFields()
    ensures VersionEdits.EncodeField(VersionEdits.Comparator([99])) == [1, 1, 99]
    ensures VersionEdits.EncodeField(VersionEdits.CompactPointer(1, [5])) == [5, 1, 1, 5]
    ensures VersionEdits.EncodeField(VersionEdits.DeletedFile(2, 13)) == [6, 2, 13]
    ensures VersionEdits.EncodeField(VersionEdits.NewFile(3, VersionEdits.FileMeta(14, 15, [6], [7]))) ==
            [7, 3, 14, 15, 1, 6, 1, 7]
  {
  }

  // ------------------------------------------------------------------ blocks and tables

  lemma BlockBody(a: Blocks.Item, b: Blocks.Item)
    requires a == Blocks.Item(Blocks.Pair([1], [2]), true) && b == Blocks.Item(Blocks.Pair([1, 3], [4]), false)
    ensures Blocks.Body([a, b]) == [0, 1, 1, 1, 2, 1, 1, 1, 3, 4]
  {
    assert Blocks.Delta([], a) == [0, 1, 1, 1, 2];
    Separators.CommonIs([1], [1, 3], 1);
    assert Blocks.Delta([1], b) == [1, 1, 1, 3, 4];
    hide Blocks.Delta;
    assert [a, b][..1] == [a] && [a][..0] == [];
    assert Blocks.Body([a]) == [] + Blocks.Delta([], a);
    assert Blocks.PrevKey([a, b], 1) == [1];
  }

  lemma BlockRestarts(a: Blocks.Item, b: Blocks.Item)
    requires !b.restart
    ensures Blocks.RestartItems([a, b]) == [0] && Blocks.Restarts([a, b]) == [0]
  {
    assert [a, b][..1] == [a] && [a, b][..0] == [];
    assert Blocks.RestartItems([a]) == [0];
    assert Blocks.Off([a, b], 0) == 0;
  }

  lemma TwoWords(a: Word, b: Word)
    ensures Words([a, b]) == Fixed32(a) + Fixed32(b)
  {
    hide Fixed32;
    assert [a, b][..1] == [a] && [a][..0] == [];
    assert Words([a]) == [] + Fixed32(a);
  }

  /** The second key takes its first byte from the first; one restart point, at the start. */
  lemma Block()
    ensures Blocks.Image([Blocks.Item(Blocks.Pair([1], [2]), true), Blocks.Item(Blocks.Pair([1, 3], [4]), false)]) ==
            [0, 1, 1, 1, 2, 1, 1, 1, 3, 4, 0, 0, 0, 0, 1, 0, 0, 0]
  {
    var a, b := Blocks.Item(Blocks.Pair([1], [2]), true), Blocks.Item(Blocks.Pair([1, 3], [4]), false);
    BlockBody(a, b);
    BlockRestarts(a, b);
    TwoWords(0, 1);
    assert Fixed32(0) == [0, 0, 0, 0] && Fixed32(1) == [1, 0, 0, 0];
    hide Blocks.Body, Blocks.RestartItems, Blocks.Restarts, Words, Fixed32;
    assert [0] + [1] == [0, 1];
  }

  lemma FilterBlock()
    ensures FilterBlocks.Layout([9], [0]) == [9, 0, 0, 0, 0, 1, 0, 0, 0, 11]
  {
    assert FilterBlocks.Truncated([0] + [1]) == [0, 1];
    TwoWords(0, 1);
    assert Fixed32(0) == [0, 0, 0, 0] && Fixed32(1) == [1, 0, 0, 0];
    hide Words, Fixed32;
  }

  /** Two probes of one key: the hash and the hash moved on by its rotation, each a bit counted from the low end of its
      byte, and the number of probes last. */
  lemma BloomOfOneKey(hash: Bytes -> Word, key: Bytes, f: Bytes)
    requires hash(key) == 0x2_0001 && Blooms.FilterOf(hash, 2, [key], f) && |f| == 9
    ensures f == [6, 0, 0, 0, 0, 0, 0, 0, 2]
  {
    var bits := Blooms.Bits(f);
    assert bits == 64;
    Blooms.DoubleHashing(0x2_0001, 0);
    Blooms.DoubleHashing(0x2_0001, 1);
    Blooms.PositionIs(hash, key, 0, bits);
    Blooms.PositionIs(hash, key, 1, bits);
    hide Blooms.Probe, Blooms.Position;
    var known := [6, 0, 0, 0, 0, 0, 0, 0, 2];
    ByteOfSix();
    forall k | 0 <= k < 8 ensures f[k] == known[k] {
      forall i | 0 <= i < 8 ensures Blooms.HasBit(f[k], i) <==> Blooms.HasBit(known[k], i) {
        ProbedBits(hash, key, bits, 8 * k + i);
        assert Blooms.Bit(f, 8 * k + i) <==> (8 * k + i == 1 || 8 * k + i == 2);
        Blooms.NoBitOfZero(i);
      }
      EightBits();
      Blooms.SameBits(f[k], known[k], 8);
    }
  }

  lemma ProbedBits(hash: Bytes -> Word, key: Bytes, bits: nat, p: nat)
    requires bits > 0 && Blooms.Position(hash, key, 0, bits) == 1 && Blooms.Position(hash, key, 1, bits) == 2
    ensures Blooms.Probed(hash, 2, [key], bits, p) <==> (p == 1 || p == 2)
  {
    hide Blooms.Position;
    assert [key][0] == key;
  }

  lemma ByteOfSix()
    ensures forall i :: 0 <= i < 8 ==> (Blooms.HasBit(6, i) <==> i == 1 || i == 2)
  {
    assert 6 / 2 == 3 && 3 / 2 == 1 && 1 / 2 == 0;
    forall i: nat | 3 <= i < 8 ensures !Blooms.HasBit(6, i) {
      Blooms.NoBitOfZero(i - 3);
      assert Blooms.HasBit(6, i) == Blooms.HasBit(3, i - 1) == Blooms.HasBit(1, i - 2) == Blooms.HasBit(0, i - 3);
    }
  }

  lemma EightBits()
    ensures Blooms.Power(8) == 256
  {
    assert Blooms.Power(8) == 2 * Blooms.Power(7) == 4 * Blooms.Power(6) == 8 * Blooms.Power(5) == 16 * Blooms.Power(4)
      == 32 * Blooms.Power(3) == 64 * Blooms.Power(2);
  }

  /** The metaindex block names the filter policy. */
  lemma FilterName(name: Bytes)
    ensures InternalKeys.Text(TableBuilds.FilterKey(name)) == "filter." + InternalKeys.Text(name)
  {
    var t := InternalKeys.Text(TableBuilds.FilterKey(name));
    assert t[..7] == "filter.";
    assert t[7..] == InternalKeys.Text(name);
  }

  /** The type of an uncompressed block is zero, a handle is offset and size, and a file ends with the magic number. */
  lemma TableBytes(contents: Bytes, a: TableFormat.Handle, b: TableFormat.Handle)
    requires a.offset < LONG && a.size < LONG && b.offset < LONG && b.size < LONG
    ensures TableFormat.Trailer(contents)[0] == 0
    ensures TableFormat.EncodeHandle(TableFormat.Handle(300, 5)) == [172, 2, 5]
    ensures TableFormat.EncodeFooter(a, b)[40..] == [0x57, 0xfb, 0x80, 0x8b, 0x24, 0x75, 0x47, 0xdb]
    ensures TableFormat.EncodeHandle(a) + TableFormat.EncodeHandle(b) <= TableFormat.EncodeFooter(a, b)
  {
    Varints();
    TableFormat.HandleRoundTrip(a, []);
    TableFormat.HandleRoundTrip(b, []);
    MagicBytes();
    hide TableFormat.EncodeHandle, Fixed64, Fixed32;
  }

  lemma MagicBytes()
    ensures Fixed64(TableFormat.MAGIC) == [0x57, 0xfb, 0x80, 0x8b, 0x24, 0x75, 0x47, 0xdb]
  {
  }

  // ------------------------------------------------------------------ protocol buffers

  function Single(tag: nat, l: Pb.LType): Pb.Field {
    Pb.Field(tag, Pb.Singular, l)
  }

  /** The examples of the Protocol Buffers documentation: 150 in field 1, "testing" in field 2, and 3, 270 and 86942
      packed
      in field 4. */
  lemma NumberField()
    ensures Pb.Tagged(Single(1, Pb.UvarintT(4)), Pb.Num(150)) == Some([0x08, 0x96, 0x01])
  {
    assert Varint(150) == [0x96, 0x01] && Varint(8) == [8];
    assert Pb.Tag(0, 1) == [8] && Pb.EncodeValue(Pb.UvarintT(4), Pb.Num(150)) == Some([0x96, 0x01]);
    assert [8] + [0x96, 0x01] == [8, 0x96, 0x01];
  }

  lemma StringField()
    ensures var testing: Bytes := [0x74, 0x65, 0x73, 0x74, 0x69, 0x6e, 0x67];
            Pb.Tagged(Single(2, Pb.StringT(20)), Pb.Blob(testing)) == Some([0x12, 0x07] + testing)
  {
    assert Varint(18) == [0x12] && Varint(7) == [7];
    var testing: Bytes := [0x74, 0x65, 0x73, 0x74, 0x69, 0x6e, 0x67];
    assert Pb.Tag(2, 2) == [0x12] && Pb.EncodeValue(Pb.StringT(20), Pb.Blob(testing)) == Some([7] + testing);
    assert [0x12] + ([7] + testing) == [0x12, 7] + testing;
  }

  lemma PackedNumbers()
    ensures Pb.AllTyped(Pb.UvarintT(4), [Pb.Num(3), Pb.Num(270), Pb.Num(86942)])
    ensures Pb.Pack(Pb.UvarintT(4), [Pb.Num(3), Pb.Num(270), Pb.Num(86942)]) == [0x03, 0x8e, 0x02, 0x9e, 0xa7, 0x05]
  {
    assert Varint(3) == [3];
    assert Varint(270) == [0x8e, 2];
    assert Varint(5) == [5] && Varint(679) == [0xa7, 5] && Varint(86942) == [0x9e, 0xa7, 5];
    var a, b, c := Pb.Num(3), Pb.Num(270), Pb.Num(86942);
    assert [a, b, c][1..] == [b, c] && [b, c][1..] == [c] && [c][1..] == [];
    hide Varint;
    assert Pb.AllTyped(Pb.UvarintT(4), [c]) && Pb.AllTyped(Pb.UvarintT(4), [b, c]);
    assert Pb.Pack(Pb.UvarintT(4), [c]) == [0x9e, 0xa7, 5];
    assert Pb.Pack(Pb.UvarintT(4), [b, c]) == [0x8e, 2, 0x9e, 0xa7, 5];
  }

  lemma PackedField()
    ensures Pb.AllTyped(Pb.UvarintT(4), [Pb.Num(3), Pb.Num(270), Pb.Num(86942)])
    ensures var f := Pb.Field(4, Pb.Repeated(5), Pb.UvarintT(4));
            Pb.EncodeSlot(f, Pb.Many([Pb.Num(3), Pb.Num(270), Pb.Num(86942)])) ==
            Some([0x22, 0x06, 0x03, 0x8e, 0x02, 0x9e, 0xa7, 0x05])
  {
    PackedNumbers();
    assert Varint(34) == [0x22] && Varint(6) == [6];
    assert Pb.Tag(2, 4) == [0x22];
    hide Varint, Pb.Pack, Pb.AllTyped;
    var b: Bytes := [0x03, 0x8e, 0x02, 0x9e, 0xa7, 0x05];
    assert Prefixed(b) == [6] + b && [0x22] + ([6] + b) == [0x22, 0x06, 0x03, 0x8e, 0x02, 0x9e, 0xa7, 0x05];
  }

  /** Zigzag: 0, -1, 1, -2 become 0, 1, 2, 3; two's complement of -1 has ten bytes; fixed-width numbers have wire types
      5
      and 1. */
  lemma WireNumbers()
    ensures Pb.WireNumber(Pb.SvarintT(4), 0) == 0 && Pb.WireNumber(Pb.SvarintT(4), -1) == 1
    ensures Pb.WireNumber(Pb.SvarintT(4), 1) == 2 && Pb.WireNumber(Pb.SvarintT(4), -2) == 3
    ensures Pb.WireNumber(Pb.VarintT(4), -1) == 0xffff_ffff_ffff_ffff
    ensures Pb.WireType(Pb.Fixed32T) == 5 && Pb.WireType(Pb.Fixed64T) == 1 && Pb.WireType(Pb.BoolT) == 0
    ensures Pb.EncodeNumber(Pb.Fixed32T, 0x0403_0201) == [1, 2, 3, 4]
  {
    FixedNumbers();
    hide Fixed32;
  }

  /** The numbers that fit the fields of each size. */
  lemma FieldWidths(n: int)
    ensures Pb.InRange(Pb.UvarintT(1), n) <==> 0 <= n <= 255
    ensures Pb.InRange(Pb.UvarintT(2), n) <==> 0 <= n <= 65535
    ensures Pb.InRange(Pb.UvarintT(4), n) <==> 0 <= n <= 4294967295
    ensures Pb.InRange(Pb.UvarintT(8), n) <==> 0 <= n <= 18446744073709551615
    ensures forall l | l == Pb.VarintT(1) || l == Pb.SvarintT(1) :: Pb.InRange(l, n) <==> -128 <= n <= 127
    ensures forall l | l == Pb.VarintT(2) || l == Pb.SvarintT(2) :: Pb.InRange(l, n) <==> -32768 <= n <= 32767
    ensures forall l | l == Pb.VarintT(4) || l == Pb.SvarintT(4) ::
              Pb.InRange(l, n) <==> -2147483648 <= n <= 2147483647
    ensures forall l | l == Pb.VarintT(8) || l == Pb.SvarintT(8) ::
              Pb.InRange(l, n) <==> -9223372036854775808 <= n <= 9223372036854775807
  {
  }
}
