/** Block handles, block trailers and the footer of a table file (table/format.cc). */
module TableFormat {
  import opened Coding
  import opened Keys
  import Crc
  import Log

  // ------------------------------------------------------------------ block handles

  datatype Handle = Handle(offset: nat, size: nat)

  function EncodeHandle(h: Handle): Bytes {
    Varint(h.offset) + Varint(h.size)
  }

  function DecodeHandle(input: Bytes): Parsed<Handle> {
    match GetVarint64(input)
    case Failed => Failed
    case Parsed(offset, rest) =>
      match GetVarint64(rest)
      case Failed => Failed
      case Parsed(size, more) => Parsed(Handle(offset, size), more)
  }

  /** A handle reads back, whatever follows it. */
  lemma HandleRoundTrip(h: Handle, more: Bytes)
    requires h.offset < LONG && h.size < LONG
    ensures DecodeHandle(EncodeHandle(h) + more) == Parsed(h, more) && |EncodeHandle(h)| <= 20
  {
    hide GetVarint64, Varint;
    assert EncodeHandle(h) + more == Varint(h.offset) + (Varint(h.size) + more);
    Varint64RoundTrip(h.offset, Varint(h.size) + more);
    Varint64RoundTrip(h.size, more);
  }

  // ------------------------------------------------------------------ blocks in a file

  const TRAILER_SIZE: nat := 5

  // The compression type of a block stored as it is.
  const UNCOMPRESSED: Byte := 0

  function BlockChecksum(data: Bytes): (crc: nat)
    ensures crc < WORD
  {
    Crc.Number(Crc.Value(Log.Bits(data)))
  }

  /** The type of a block and the masked checksum of contents and type. */
  function Trailer(contents: Bytes): (b: Bytes)
    ensures |b| == TRAILER_SIZE
  {
    [UNCOMPRESSED] + Fixed32(Crc.Mask(BlockChecksum(contents + [UNCOMPRESSED])))
  }

  /** A block as it lies in the file. */
  function Raw(contents: Bytes): (b: Bytes)
    ensures |b| == |contents| + TRAILER_SIZE
  {
    contents + Trailer(contents)
  }

  /** ReadBlock without Snappy: a short read, a wrong checksum if it is verified, a compressed block or an
      unknown type fail. */
  function ReadBlock(file: Bytes, h: Handle, verify: bool): Option<Bytes> {
    var n := h.size;
    if h.offset + n + TRAILER_SIZE > |file| then None
    else
      var data := file[h.offset..h.offset + n + TRAILER_SIZE];
      if verify && Crc.Unmask(DecodeFixed32(data[n + 1..])) != BlockChecksum(data[..n + 1]) then None
      else if data[n] == UNCOMPRESSED then Some(data[..n])
      else None
  }

  /** Bytes lie in a file at an offset. */
  predicate Lies(file: Bytes, offset: nat, b: Bytes) {
    offset + |b| <= |file| && file[offset..offset + |b|] == b
  }

  lemma StillLies(file: Bytes, more: Bytes, offset: nat, b: Bytes)
    requires Lies(file, offset, b)
    ensures Lies(file + more, offset, b)
  {
    assert (file + more)[offset..offset + |b|] == file[offset..offset + |b|];
  }

  lemma LiesAtEnd(file: Bytes, b: Bytes)
    ensures Lies(file + b, |file|, b)
  {
  }

  /** A block written is read, checksum and all. */
  lemma BlockReads(file: Bytes, offset: nat, contents: Bytes, verify: bool)
    requires Lies(file, offset, Raw(contents))
    ensures ReadBlock(file, Handle(offset, |contents|), verify) == Some(contents)
  {
    hide Fixed32, DecodeFixed32, Crc.Mask, Crc.Unmask, BlockChecksum;
    var n, data := |contents|, Raw(contents);
    var crc := BlockChecksum(contents + [UNCOMPRESSED]);
    assert data[..n] == contents && data[n] == UNCOMPRESSED && data[..n + 1] == contents + [UNCOMPRESSED];
    assert data[n + 1..] == Fixed32(Crc.Mask(crc));
    Fixed32RoundTrip(Crc.Mask(crc));
    Crc.UnmaskMask(crc);
  }

  /** WriteRawBlock: the checksum of the contents is extended by the type. */
  method WriteRawBlock(file: Bytes, contents: Bytes) returns (more: Bytes, h: Handle)
    ensures more == file + Raw(contents) && h == Handle(|file|, |contents|)
  {
    hide Fixed32, Crc.Mask, Crc.Extended, Crc.Value, Crc.Number, Log.Bits;
    h := Handle(|file|, |contents|);
    more := file + contents;
    var crc := Crc.Value(Log.Bits(contents));
    crc := Crc.Extended(crc, Log.Bits([UNCOMPRESSED]));
    ExtendedByType(contents);
    more := more + ([UNCOMPRESSED] + Fixed32(Crc.Mask(Crc.Number(crc))));
    assert more == file + (contents + Trailer(contents));
  }

  lemma ExtendedByType(contents: Bytes)
    ensures Crc.Number(Crc.Extended(Crc.Value(Log.Bits(contents)), Log.Bits([UNCOMPRESSED]))) ==
            BlockChecksum(contents + [UNCOMPRESSED])
  {
    hide Crc.Extended;
    Crc.ExtendComposes(0, Log.Bits(contents), Log.Bits([UNCOMPRESSED]));
    assert Log.Bits(contents + [UNCOMPRESSED]) == Log.Bits(contents) + Log.Bits([UNCOMPRESSED]);
  }

  // ------------------------------------------------------------------ the footer

  const MAGIC: nat := 0xdb47_7524_8b80_fb57
  const FOOTER_SIZE: nat := 48

  function Padding(n: nat): (b: Bytes)
    ensures |b| == n
  {
    seq(n, _ => 0)
  }

  /** Two handles padded to forty bytes, and the magic number. */
  function EncodeFooter(metaindex: Handle, index: Handle): Bytes {
    var handles := EncodeHandle(metaindex) + EncodeHandle(index);
    handles + Padding(if |handles| < 40 then 40 - |handles| else 0) + Fixed64(MAGIC)
  }

  datatype Footer = Footer(metaindex: Handle, index: Handle)

  function DecodeFooter(b: Bytes): Option<Footer>
    requires |b| == FOOTER_SIZE
  {
    if DecodeFixed64(b[40..]) != MAGIC then None
    else
      match DecodeHandle(b)
      case Failed => None
      case Parsed(metaindex, rest) =>
        match DecodeHandle(rest)
        case Failed => None
        case Parsed(index, _) => Some(Footer(metaindex, index))
  }

  lemma FooterRoundTrip(metaindex: Handle, index: Handle)
    requires metaindex.offset < LONG && metaindex.size < LONG && index.offset < LONG && index.size < LONG
    ensures var b := EncodeFooter(metaindex, index);
            |b| == FOOTER_SIZE && DecodeFooter(b) == Some(Footer(metaindex, index))
  {
    hide EncodeHandle, DecodeHandle, Fixed64, DecodeFixed64;
    HandleRoundTrip(metaindex, []);
    HandleRoundTrip(index, []);
    var a, b := EncodeHandle(metaindex), EncodeHandle(index);
    var rest := Padding(40 - |a + b|) + Fixed64(MAGIC);
    var f := EncodeFooter(metaindex, index);
    assert f == a + (b + rest);
    assert f[40..] == Fixed64(MAGIC) + [];
    Fixed64RoundTrip(MAGIC, []);
    HandleRoundTrip(metaindex, b + rest);
    HandleRoundTrip(index, rest);
  }
}
