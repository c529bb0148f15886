/** The write-ahead log: fragmented physical records in fixed-size blocks
    (db/log_format.h, db/log_writer.cc, db/log_reader.cc).  */
module Log {
  import Keys
  import Crc
  import opened Coding

  const BLOCK: nat := 32768
  const HEADER: nat := 7

  // Record types; END and BAD are what ReadPhysicalRecord returns besides them.
  const FULL: Byte := 1
  const FIRST: Byte := 2
  const MIDDLE: Byte := 3
  const LAST: Byte := 4
  const END: Byte := 5
  const BAD: Byte := 6

  // ------------------------------------------------------------------ the header

  function Bits(data: Bytes): (b: seq<Crc.Octet>)
    ensures |b| == |data|
  {
    seq(|data|, i requires 0 <= i < |data| => data[i] as Crc.Octet)
  }

  /** The checksum of a record: of its type byte and payload. */
  function Checksum(t: Byte, data: Bytes): (crc: nat)
    ensures crc < WORD
  {
    Crc.Number(Crc.Value(Bits([t] + data)))
  }

  /** The header as the writer forms it. */
  function Header(t: Byte, data: Bytes): (h: Bytes)
    requires |data| < 65536
    ensures |h| == HEADER
  {
    Fixed32(Crc.Mask(Checksum(t, data))) + [|data| % 256, |data| / 256, t]
  }

  /** The header as the reader parses it. */
  function LengthIn(header: Bytes): nat
    requires |header| == HEADER
  {
    var low: int, high: int := header[4], header[5];
    low + 256 * high
  }

  predicate ChecksumHolds(header: Bytes, data: Bytes)
    requires |header| == HEADER
  {
    Crc.Unmask(DecodeFixed32(header)) == Checksum(header[6], data)
  }

  lemma HeaderRoundTrip(t: Byte, data: Bytes)
    requires |data| < 65536
    ensures LengthIn(Header(t, data)) == |data| && Header(t, data)[6] == t
    ensures ChecksumHolds(Header(t, data), data)
  {
    hide Fixed32, DecodeFixed32, Crc.Mask, Crc.Unmask, Checksum;
    var crc := Crc.Mask(Checksum(t, data));
    Fixed32RoundTrip(crc);
    DecodesPrefix(Fixed32(crc), [|data| % 256, |data| / 256, t]);
    Crc.UnmaskMask(Checksum(t, data));
  }

  // ------------------------------------------------------------------ what the writer lays out

  function Zeros(n: nat): (z: Bytes)
    ensures |z| == n
  {
    seq(n, _ => 0)
  }

  /** The trailer left unused when fewer than a header's bytes remain in the block. */
  function Pad(p: nat): (n: nat)
    ensures n < HEADER && (p + n) % BLOCK + HEADER <= BLOCK
  {
    var leftover := BLOCK - p % BLOCK;
    if leftover < HEADER then leftover else 0
  }

  function Room(p: nat): nat {
    BLOCK - HEADER - (p + Pad(p)) % BLOCK
  }

  function Taken(p: nat, data: Bytes): (n: nat)
    ensures n <= |data| && n < 65536
  {
    if |data| < Room(p) then |data| else Room(p)
  }

  function TypeOf(begin: bool, end: bool): Byte {
    if begin && end then FULL else if begin then FIRST else if end then LAST else MIDDLE
  }

  /** The padding and physical record written at position `p` for the rest `data` of a record. */
  function Fragment(p: nat, data: Bytes, begin: bool): (f: Bytes)
    ensures |f| == Pad(p) + HEADER + Taken(p, data)
  {
    var n := Taken(p, data);
    Zeros(Pad(p)) + Header(TypeOf(begin, n == |data|), data[..n]) + data[..n]
  }

  /** All bytes the writer appends at position `p` for the rest `data` of a record. */
  function Encode(p: nat, data: Bytes, begin: bool): (e: Bytes)
    ensures |e| > 0
    decreases |data|, if Room(p) == 0 then 1 else 0
  {
    var f, n := Fragment(p, data, begin), Taken(p, data);
    if n == |data| then f else f + Encode(p + |f|, data[n..], false)
  }

  /** The log file holding `records`, written from position `p` on. */
  function LogFrom(p: nat, records: seq<Bytes>): Bytes
    decreases |records|
  {
    if records == [] then [] else
    var e := Encode(p, records[0], true);
    e + LogFrom(p + |e|, records[1..])
  }

  /** Extending the checksum of the type byte by the payload is the checksum of both. */
  lemma TypeThenPayload(t: Byte, data: Bytes)
    ensures Crc.Number(Crc.Extended(Crc.Value(Bits([t])), Bits(data))) == Checksum(t, data)
  {
    hide Crc.Extended;
    Crc.ExtendComposes(0, Bits([t]), Bits(data));
    assert Bits([t]) + Bits(data) == Bits([t] + data);
  }

  // ------------------------------------------------------------------ log::Writer

  class Writer {
    // What has been appended to the destination file.
    var file: Bytes
    var blockOffset: nat

    ghost predicate Valid()
      reads this
    {
      blockOffset <= BLOCK && blockOffset % BLOCK == |file| % BLOCK
    }

    /** Start a writer on an existing file. */
    constructor (dest: Bytes)
      ensures Valid() && file == dest
    {
      file := dest;
      blockOffset := |dest| % BLOCK;
    }

    method EmitPhysicalRecord(t: Byte, data: Bytes)
      requires Valid() && |data| < 65536 && blockOffset + HEADER + |data| <= BLOCK
      modifies this
      ensures Valid() && file == old(file) + (Header(t, data) + data)
      ensures blockOffset == old(blockOffset) + HEADER + |data|
    {
      hide Checksum, Fixed32, Crc.Mask, Crc.Extended, Crc.Value, Bits, Crc.Number;
      var crc := Crc.Extended(Crc.Value(Bits([t])), Bits(data));
      TypeThenPayload(t, data);
      file := file + (Fixed32(Crc.Mask(Crc.Number(crc))) + [|data| % 256, |data| / 256, t]);
      file := file + data;
      blockOffset := blockOffset + HEADER + |data|;
    }

    /** Leave a trailer too small for a header empty. */
    method SkipTrailer()
      requires Valid()
      modifies this
      ensures Valid() && file == old(file) + Zeros(Pad(|old(file)|))
      ensures blockOffset == (|old(file)| + Pad(|old(file)|)) % BLOCK
    {
      var leftover := BLOCK - blockOffset;
      if leftover < HEADER {
        if leftover > 0 {
          file := file + Zeros(leftover);
        }
        blockOffset := 0;
      }
    }

    method AddRecord(record: Bytes)
      requires Valid()
      modifies this
      ensures Valid() && file == old(file) + Encode(|old(file)|, record, true)
    {
      hide Header, Zeros, Pad, Fragment, Room, Encode;
      var rest, begin, more := record, true, true;
      while more
        invariant Valid()
        invariant more ==> old(file) + Encode(|old(file)|, record, true) == file + Encode(|file|, rest, begin)
        invariant !more ==> old(file) + Encode(|old(file)|, record, true) == file
        decreases more, |rest|, if Room(|file|) == 0 then 1 else 0
      {
        ghost var before, data := file, rest;
        SkipTrailer();
        RoomIs(|before|);
        var avail := BLOCK - blockOffset - HEADER;
        var length := if |rest| < avail then |rest| else avail;
        var end := |rest| == length;
        var t := if begin && end then FULL else if begin then FIRST else if end then LAST else MIDDLE;
        EmitPhysicalRecord(t, rest[..length]);
        FragmentIs(before, data, begin, file);
        EncodeUnfolds(|before|, data, begin);
        rest := rest[length..];
        begin := false;
        more := |rest| > 0;
      }
    }
  }

  lemma RoomIs(p: nat)
    ensures (p + Pad(p)) % BLOCK + HEADER + Room(p) == BLOCK
  {
  }

  lemma FragmentIs(before: Bytes, data: Bytes, begin: bool, file: Bytes)
    requires var n := Taken(|before|, data); var t := TypeOf(begin, n == |data|);
             file == before + Zeros(Pad(|before|)) + (Header(t, data[..n]) + data[..n])
    ensures file == before + Fragment(|before|, data, begin)
  {
    hide Header, Zeros, Pad;
  }

  lemma EncodeUnfolds(p: nat, data: Bytes, begin: bool)
    ensures var f, n := Fragment(p, data, begin), Taken(p, data);
            Encode(p, data, begin) == if n == |data| then f else f + Encode(p + |f|, data[n..], false)
    ensures Taken(p, data) == 0 && data != [] ==> Room(p) == 0 && Room(p + |Fragment(p, data, begin)|) > 0
  {
    hide Header;
  }

  // ------------------------------------------------------------------ specification of the reader

  /** One physical record: its type (or END or BAD), its payload, the position after it, and the
      byte counts of the corruptions reported. */
  datatype Physical = Physical(typ: Byte, data: Bytes, next: nat, drops: seq<nat>)

  /** The end of the buffer that position `p` is read into. */
  function BlockEnd(file: Bytes, p: nat): (e: nat)
    requires p <= |file|
    ensures p <= e <= |file|
  {
    var e := p - p % BLOCK + BLOCK;
    if e < |file| then e else |file|
  }

  function HeaderAt(file: Bytes, p: nat): (h: Bytes)
    requires p + HEADER <= |file|
    ensures |h| == HEADER
  {
    file[p..p + HEADER]
  }

  /** A header and what follows it in the buffer, which ends at `end`. */
  function ParseAt(file: Bytes, p: nat, end: nat, checksum: bool): (r: Physical)
    requires p + HEADER <= end <= |file|
    ensures p < r.next <= end
  {
    var header := HeaderAt(file, p);
    var length, t := LengthIn(header), header[6];
    if HEADER + length > end - p then
      // A writer that died within a record left a buffer shorter than a block.
      if end % BLOCK == 0 then Physical(BAD, [], end, [end - p]) else Physical(END, [], end, [])
    else if t == 0 && length == 0 then
      Physical(BAD, [], end, [])
    else
      var data := file[p + HEADER..p + HEADER + length];
      if checksum && !ChecksumHolds(header, data) then Physical(BAD, [], end, [end - p])
      else Physical(t, data, p + HEADER + length, [])
  }

  function ReadPhysical(file: Bytes, p: nat, checksum: bool): (r: Physical)
    requires p <= |file|
    ensures r.next <= |file| && (r.typ != END ==> p < r.next)
    decreases |file| - p
  {
    var end := BlockEnd(file, p);
    if end - p >= HEADER then ParseAt(file, p, end, checksum)
    else if end == |file| then Physical(END, [], end, [])
    else ReadPhysical(file, end, checksum)
  }

  /** One logical record, or none at the end of the file. */
  datatype Logical = Logical(record: Keys.Option<Bytes>, next: nat, drops: seq<nat>)

  /** What one physical record leads to, with the byte counts reported: the end of ReadRecord, or
      more reading with a new scratch buffer. */
  datatype Outcome =
    | Done(record: Keys.Option<Bytes>, drops: seq<nat>)
    | More(fragmented: bool, scratch: Bytes, drops: seq<nat>)

  function Assemble(t: Byte, data: Bytes, fragmented: bool, scratch: Bytes): (o: Outcome)
    ensures o.More? ==> t != END
    ensures o.Done? && o.record.Some? ==> t != END
  {
    // A fragmented record cut short by a new one; an empty first fragment was an old writer's bug.
    var cut := if fragmented && scratch != [] then [|scratch|] else [];
    if t == END then Done(Keys.None, [])
    else if t == FULL then Done(Keys.Some(data), cut)
    else if t == FIRST then More(true, data, cut)
    else if t == MIDDLE then if fragmented then More(true, scratch + data, []) else More(false, scratch, [|data|])
    else if t == LAST then if fragmented then Done(Keys.Some(scratch + data), []) else More(false, scratch, [|data|])
    else if t == BAD then if fragmented then More(false, [], [|scratch|]) else More(false, scratch, [])
    else More(false, [], [|data| + if fragmented then |scratch| else 0])
  }

  function ReadLogical(file: Bytes, p: nat, checksum: bool, fragmented: bool, scratch: Bytes,
                       drops: seq<nat>): (r: Logical)
    requires p <= |file|
    ensures r.next <= |file| && (r.record.Some? ==> p < r.next)
    decreases |file| - p
  {
    var f := ReadPhysical(file, p, checksum);
    match Assemble(f.typ, f.data, fragmented, scratch)
    case Done(record, d) => Logical(record, f.next, drops + f.drops + d)
    case More(fragmented', scratch', d) => ReadLogical(file, f.next, checksum, fragmented', scratch',
      drops + f.drops + d)
  }

  lemma LogicalUnfolds(file: Bytes, p: nat, checksum: bool, fragmented: bool, scratch: Bytes, drops: seq<nat>,
                       data: Bytes)
    requires p <= |file|
    requires var f := ReadPhysical(file, p, checksum); f.typ != END ==> data == f.data
    ensures var f := ReadPhysical(file, p, checksum);
            ReadLogical(file, p, checksum, fragmented, scratch, drops) ==
            match Assemble(f.typ, data, fragmented, scratch)
            case Done(record, d) => Logical(record, f.next, drops + f.drops + d)
            case More(fragmented', scratch', d) => ReadLogical(file, f.next, checksum, fragmented', scratch',
              drops + f.drops + d)
  {
    hide ReadPhysical;
  }

  /** Reading until ReadRecord fails: the records, and the corruptions reported. */
  function ReadAll(file: Bytes, p: nat, checksum: bool): (seq<Bytes>, seq<nat>)
    requires p <= |file|
    decreases |file| - p
  {
    var r := ReadLogical(file, p, checksum, false, [], []);
    if r.record.None? then ([], r.drops) else
    var (records, drops) := ReadAll(file, r.next, checksum);
    ([r.record.value] + records, r.drops + drops)
  }

  // ------------------------------------------------------------------ log::Reader

  lemma SubSlice(file: Bytes, p: nat, end: nat, lo: nat, hi: nat)
    requires p <= end <= |file| && lo <= hi <= end - p
    ensures file[p..end][lo..hi] == file[p + lo..p + hi]
  {
    assert forall i :: 0 <= i < hi - lo ==> file[p..end][lo..hi][i] == file[p + lo + i];
  }

  lemma TrailerSkipped(file: Bytes, p: nat, end: nat, checksum: bool)
    requires p <= end <= |file| && end - p < HEADER && end % BLOCK == 0
    ensures ReadPhysical(file, p, checksum) == ReadPhysical(file, end, checksum)
  {
    hide ParseAt;
    if p < end { assert BlockEnd(file, p) == end; }
  }

  class Reader {
    const file: Bytes
    const checksum: bool
    var buffer: Bytes
    var eof: bool
    var endOfBuffer: nat
    // The byte counts passed to the reporter.
    var drops: seq<nat>

    ghost predicate Valid()
      reads this
    {
      && |buffer| <= endOfBuffer <= |file| && buffer == file[endOfBuffer - |buffer|..endOfBuffer]
      && (if eof
          then endOfBuffer == |file| && (buffer == [] || Position() >= |file| - |file| % BLOCK)
          else endOfBuffer % BLOCK == 0 && |buffer| <= BLOCK)
    }

    ghost function Position(): int
      reads this
    {
      endOfBuffer - |buffer|
    }

    constructor (file: Bytes, checksum: bool)
      ensures Valid() && this.file == file && this.checksum == checksum && Position() == 0 && drops == []
    {
      this.file, this.checksum := file, checksum;
      buffer, eof, endOfBuffer, drops := [], false, 0, [];
    }

    method ReportCorruption(bytes: nat)
      requires Valid()
      modifies this`drops
      ensures Valid() && Position() == old(Position()) && drops == old(drops) + [bytes]
    {
      drops := drops + [bytes];
    }

    method RemovePrefix(n: nat)
      requires Valid() && n <= |buffer|
      modifies this`buffer
      ensures Valid() && Position() == old(Position()) + n
    {
      SubSlice(file, Position(), endOfBuffer, n, |buffer|);
      buffer := buffer[n..];
    }

    /** Fill the buffer from the file; what is left of a whole block is padding. */
    method Refill()
      requires Valid() && |buffer| < HEADER && !eof
      modifies this
      ensures Valid() && drops == old(drops) && old(Position()) <= Position() <= |file|
      ensures eof || endOfBuffer > old(endOfBuffer)
      ensures ReadPhysical(file, Position(), checksum) == ReadPhysical(file, old(Position()), checksum)
    {
      hide ReadPhysical;
      TrailerSkipped(file, Position(), endOfBuffer, checksum);
      var n := if |file| - endOfBuffer < BLOCK then |file| - endOfBuffer else BLOCK;
      buffer := file[endOfBuffer..endOfBuffer + n];
      endOfBuffer := endOfBuffer + n;
      if |buffer| < BLOCK {
        eof := true;
      }
    }

    lemma InFile()
      requires Valid()
      ensures 0 <= Position() <= |file| && endOfBuffer <= |file|
    {
    }

    lemma BufferIsBlock()
      requires Valid() && (|buffer| >= HEADER || eof)
      ensures 0 <= Position() <= |file| && BlockEnd(file, Position()) == endOfBuffer
    {
    }

    /** Parse the physical record at the front of the buffer. */
    method Parse() returns (t: Byte, fragment: Bytes)
      requires Valid() && |buffer| >= HEADER
      modifies this
      ensures Valid() && Position() >= 0
      ensures var r := ParseAt(file, old(Position()), old(endOfBuffer), checksum);
              t == r.typ && (t != END ==> fragment == r.data) && Position() == r.next && drops == old(drops) + r.drops
    {
      hide LengthIn, ChecksumHolds, Reader.Valid;
      InFile();
      EofIsShort();
      BufferSlice(0, HEADER);
      var header := buffer[..HEADER];
      var length := LengthIn(header);
      t := header[6];
      if HEADER + length > |buffer| {
        var dropSize := |buffer|;
        RemovePrefix(|buffer|);
        if !eof {
          ReportCorruption(dropSize);
          return BAD, [];
        }
        return END, [];
      }
      if t == 0 && length == 0 {
        RemovePrefix(|buffer|);
        return BAD, [];
      }
      BufferSlice(HEADER, HEADER + length);
      fragment := buffer[HEADER..HEADER + length];
      if checksum && !ChecksumHolds(header, fragment) {
        var dropSize := |buffer|;
        RemovePrefix(|buffer|);
        ReportCorruption(dropSize);
        return BAD, [];
      }
      RemovePrefix(HEADER + length);
    }

    lemma BufferSlice(lo: nat, hi: nat)
      requires Valid() && lo <= hi <= |buffer|
      ensures 0 <= Position() && buffer[lo..hi] == file[Position() + lo..Position() + hi]
    {
      SubSlice(file, Position(), endOfBuffer, lo, hi);
    }

    lemma EofIsShort()
      requires Valid()
      ensures |buffer| >= HEADER ==> (eof <==> endOfBuffer % BLOCK != 0)
    {
    }

    /** A header cut short by a crash is no error: clear it and stop. */
    method DropTruncatedHeader()
      requires Valid() && |buffer| < HEADER && eof
      modifies this
      ensures Valid() && drops == old(drops) && Position() == |file|
      ensures 0 <= old(Position()) <= |file|
      ensures ReadPhysical(file, old(Position()), checksum) == Physical(END, [], |file|, [])
    {
      hide ParseAt;
      BufferIsBlock();
      buffer := [];
    }

    method ReadPhysicalRecord() returns (t: Byte, fragment: Bytes)
      requires Valid()
      modifies this
      ensures Valid() && Position() >= 0
      ensures var r := ReadPhysical(file, old(Position()), checksum);
              t == r.typ && (t != END ==> fragment == r.data) && Position() == r.next && drops == old(drops) + r.drops
    {
      hide ParseAt, Reader.Valid;
      InFile();
      while |buffer| < HEADER
        invariant Valid() && 0 <= Position() <= |file| && drops == old(drops)
        invariant ReadPhysical(file, Position(), checksum) == ReadPhysical(file, old(Position()), checksum)
        decreases !eof, |file| - endOfBuffer
      {
        InFile();
        if eof {
          DropTruncatedHeader();
          return END, [];
        }
        Refill();
      }
      BufferIsBlock();
      t, fragment := Parse();
    }

    method ReadRecord() returns (record: Keys.Option<Bytes>)
      requires Valid()
      modifies this
      ensures Valid() && Position() >= 0
      ensures var r := ReadLogical(file, old(Position()), checksum, false, [], []);
              record == r.record && Position() == r.next && drops == old(drops) + r.drops
    {
      hide Reader.Valid, Reader.Position, ReadPhysical, ReadLogical, Assemble;
      InFile();
      var scratch: Bytes, fragmented := [], false;
      ghost var d: seq<nat> := [];
      while true
        invariant Valid() && 0 <= Position() <= |file|
        invariant drops == old(drops) + d
        invariant ReadLogical(file, old(Position()), checksum, false, [], []) ==
                  ReadLogical(file, Position(), checksum, fragmented, scratch, d)
        decreases |file| - Position()
      {
        ghost var p, r := Position(), ReadPhysical(file, Position(), checksum);
        var t, fragment := ReadPhysicalRecord();
        InFile();
        LogicalUnfolds(file, p, checksum, fragmented, scratch, d, fragment);
        ghost var o := Assemble(t, fragment, fragmented, scratch);
        var done;
        done, record, fragmented, scratch := Consume(t, fragment, fragmented, scratch);
        InFile();
        d := d + r.drops + o.drops;
        if done {
          return;
        }
      }
    }

    /** The cases of ReadRecord's switch on the record type. */
    method Consume(t: Byte, fragment: Bytes, wasFragmented: bool, oldScratch: Bytes)
      returns (done: bool, record: Keys.Option<Bytes>, fragmented: bool, scratch: Bytes)
      requires Valid()
      modifies this`drops
      ensures Valid() && Position() == old(Position())
      ensures var o := Assemble(t, fragment, wasFragmented, oldScratch);
              && drops == old(drops) + o.drops && done == o.Done?
              && (if done then record == o.record else fragmented == o.fragmented && scratch == o.scratch)
    {
      hide Reader.Valid, Reader.Position;
      done, record, fragmented, scratch := false, Keys.None, wasFragmented, oldScratch;
      if t == END {
        done := true;
      } else if t == FULL || t == FIRST {
        if fragmented && scratch != [] {
          ReportCorruption(|scratch|);
        }
        if t == FULL {
          done, record := true, Keys.Some(fragment);
        } else {
          scratch, fragmented := fragment, true;
        }
      } else if t == MIDDLE {
        if !fragmented {
          ReportCorruption(|fragment|);
        } else {
          scratch := scratch + fragment;
        }
      } else if t == LAST {
        if !fragmented {
          ReportCorruption(|fragment|);
        } else {
          done, record := true, Keys.Some(scratch + fragment);
        }
      } else if t == BAD {
        if fragmented {
          ReportCorruption(|scratch|);
          scratch, fragmented := [], false;
        }
      } else {
        ReportCorruption(|fragment| + if fragmented then |scratch| else 0);
        scratch, fragmented := [], false;
      }
    }
  }
}
