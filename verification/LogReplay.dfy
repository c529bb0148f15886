/** Reading back a log: the whole of it, or what a crash left of it. */
module LogReplay {
  import Keys
  import opened Coding
  import opened Log

  // ------------------------------------------------------------------ one fragment

  lemma SlicesOfPrefix(file: Bytes, p: nat, bytes: Bytes, lo: nat, hi: nat)
    requires p <= |file| && file[p..] <= bytes && lo <= hi && p + hi <= |file|
    ensures hi <= |bytes| && file[p + lo..p + hi] == bytes[lo..hi]
  {
    var m := |file| - p;
    assert bytes[..m] == file[p..];
    assert forall i :: lo <= i < hi ==> file[p + i] == file[p..][i] == bytes[i];
  }

  lemma FragmentParts(p: nat, data: Bytes, begin: bool, tail: Bytes)
    ensures var bytes, pad, n := Fragment(p, data, begin) + tail, Pad(p), Taken(p, data);
            && bytes[pad..pad + HEADER] == Header(TypeOf(begin, n == |data|), data[..n])
            && bytes[pad + HEADER..pad + HEADER + n] == data[..n]
  {
    hide Header, Pad, Taken;
  }

  lemma FitsInBlock(p: nat, data: Bytes)
    ensures (p + Pad(p)) % BLOCK + HEADER + Taken(p, data) <= BLOCK
  {
  }

  /** What is read at `p`, where the writer wrote the first fragment of `data`. */
  function ReadOf(file: Bytes, p: nat, data: Bytes, begin: bool): Physical {
    var n, next := Taken(p, data), p + |Fragment(p, data, begin)|;
    if next <= |file| then Physical(TypeOf(begin, n == |data|), data[..n], next, [])
    else Physical(END, [], |file|, [])
  }

  /** The header of the fragment at `p`, as it stands in the file. */
  lemma HeaderInFile(file: Bytes, p: nat, data: Bytes, begin: bool, tail: Bytes)
    requires p + Pad(p) + HEADER <= |file| && file[p..] <= Fragment(p, data, begin) + tail
    ensures var q, n := p + Pad(p), Taken(p, data); var t := TypeOf(begin, n == |data|);
            && file[q..q + HEADER] == Header(t, data[..n]) && LengthIn(file[q..q + HEADER]) == n
            && file[q..q + HEADER][6] == t && ChecksumHolds(file[q..q + HEADER], data[..n])
  {
    hide Fragment, Taken, Pad, Header, LengthIn, ChecksumHolds;
    var n := Taken(p, data);
    FragmentParts(p, data, begin, tail);
    SlicesOfPrefix(file, p, Fragment(p, data, begin) + tail, Pad(p), Pad(p) + HEADER);
    HeaderRoundTrip(TypeOf(begin, n == |data|), data[..n]);
  }

  /** The payload of a whole fragment, as it stands in the file. */
  lemma PayloadInFile(file: Bytes, p: nat, data: Bytes, begin: bool, tail: Bytes)
    requires p <= |file| && file[p..] <= Fragment(p, data, begin) + tail
    requires p + Pad(p) + HEADER + Taken(p, data) <= |file|
    ensures var q, n := p + Pad(p), Taken(p, data); file[q + HEADER..q + HEADER + n] == data[..n]
  {
    hide Fragment, Taken, Pad, Header;
    FragmentParts(p, data, begin, tail);
    SlicesOfPrefix(file, p, Fragment(p, data, begin) + tail, Pad(p) + HEADER, Pad(p) + HEADER + Taken(p, data));
  }

  /** Where the block of the fragment at `p` ends: the fragment fits in it. */
  lemma EndOfBlock(file: Bytes, p: nat, data: Bytes)
    requires p + Pad(p) + HEADER <= |file|
    ensures var q, n, end := p + Pad(p), Taken(p, data), BlockEnd(file, p + Pad(p));
            && q + HEADER <= end && (q + HEADER + n <= |file| ==> q + HEADER + n <= end)
            && (q + HEADER + n > |file| ==> end == |file| && end % BLOCK != 0)
  {
    hide Taken, Pad;
    FitsInBlock(p, data);
  }

  /** A whole fragment is read as written. */
  lemma WholeFragmentReads(file: Bytes, q: nat, end: nat, n: nat, t: Byte, data: Bytes, checksum: bool)
    requires q + HEADER + n <= end <= |file| && |data| == n && FULL <= t <= LAST
    requires file[q + HEADER..q + HEADER + n] == data
    requires LengthIn(file[q..q + HEADER]) == n && file[q..q + HEADER][6] == t &&
             ChecksumHolds(file[q..q + HEADER], data)
    ensures ParseAt(file, q, end, checksum) == Physical(t, data, q + HEADER + n, [])
  {
    hide LengthIn, ChecksumHolds;
  }

  /** A fragment whose payload is cut short reads as the end of the file. */
  lemma CutFragmentReads(file: Bytes, q: nat, n: nat, checksum: bool)
    requires q + HEADER <= |file| < q + HEADER + n && LengthIn(file[q..q + HEADER]) == n && |file| % BLOCK != 0
    ensures ParseAt(file, q, |file|, checksum) == Physical(END, [], |file|, [])
  {
    hide LengthIn, ChecksumHolds;
  }

  /** A fragment is read as written if it is whole, and as the end of the file if it is cut short. */
  lemma FragmentReads(file: Bytes, p: nat, data: Bytes, begin: bool, tail: Bytes, checksum: bool)
    requires p + Pad(p) <= |file| && file[p..] <= Fragment(p, data, begin) + tail
    ensures var q, end := p + Pad(p), BlockEnd(file, p + Pad(p));
            q + HEADER <= |file| ==>
              q + HEADER <= end && ParseAt(file, q, end, checksum) == ReadOf(file, p, data, begin)
  {
    hide Fragment, Taken, Pad, Header, LengthIn, ChecksumHolds, ParseAt, BlockEnd;
    var q, n, end := p + Pad(p), Taken(p, data), BlockEnd(file, p + Pad(p));
    if q + HEADER <= |file| {
      HeaderInFile(file, p, data, begin, tail);
      EndOfBlock(file, p, data);
      if q + HEADER + n <= |file| {
        PayloadInFile(file, p, data, begin, tail);
        WholeFragmentReads(file, q, end, n, TypeOf(begin, n == |data|), data[..n], checksum);
      } else {
        CutFragmentReads(file, q, n, checksum);
      }
    }
  }

  lemma PhysicalReads(file: Bytes, p: nat, data: Bytes, begin: bool, tail: Bytes, checksum: bool)
    requires p <= |file| && file[p..] <= Fragment(p, data, begin) + tail
    ensures ReadPhysical(file, p, checksum) == ReadOf(file, p, data, begin)
  {
    hide ParseAt, Fragment, Taken;
    if p + Pad(p) <= |file| {
      FragmentReads(file, p, data, begin, tail, checksum);
      if Pad(p) > 0 {
        TrailerSkipped(file, p, p + Pad(p), checksum);
      }
    }
  }

  // ------------------------------------------------------------------ one record

  lemma PrefixSplits(file: Bytes, p: nat, a: Bytes, b: Bytes)
    requires p <= |file| && file[p..] <= a + b && |file| - p >= |a|
    ensures file[p + |a|..] <= b
  {
    assert file[p..][|a|..] == file[p + |a|..];
    assert (a + b)[..|file| - p] == file[p..];
    assert (a + b)[|a|..] == b;
  }

  /** A record is read back exactly when its last fragment survived whole. */
  lemma {:induction false} RecordReads(file: Bytes, p: nat, data: Bytes, begin: bool, tail: Bytes,
                                       checksum: bool, scratch: Bytes)
    requires p <= |file| && file[p..] <= Encode(p, data, begin) + tail && (begin ==> scratch == [])
    ensures ReadLogical(file, p, checksum, !begin, scratch, []) ==
            if |file| - p >= |Encode(p, data, begin)|
            then Logical(Keys.Some(scratch + data), p + |Encode(p, data, begin)|, [])
            else Logical(Keys.None, |file|, [])
    decreases |data|, if Room(p) == 0 then 1 else 0
  {
    hide Fragment, Taken, Room, Encode, ReadPhysical, ReadLogical;
    var f, n := Fragment(p, data, begin), Taken(p, data);
    EncodeUnfolds(p, data, begin);
    if n == |data| {
      assert data[..n] == data;
      PhysicalReads(file, p, data, begin, tail, checksum);
      Unfolds(file, p, checksum, !begin, scratch, data);
    } else {
      var e := Encode(p + |f|, data[n..], false);
      assert f + e + tail == f + (e + tail);
      PhysicalReads(file, p, data, begin, e + tail, checksum);
      Unfolds(file, p, checksum, !begin, scratch, data[..n]);
      if |file| - p >= |f| {
        PrefixSplits(file, p, f, e + tail);
        RecordReads(file, p + |f|, data[n..], false, tail, checksum, scratch + data[..n]);
        assert scratch + data[..n] + data[n..] == scratch + data;
      }
    }
  }

  /** One step of ReadRecord on a fragment the writer wrote, or at the end. */
  lemma Unfolds(file: Bytes, p: nat, checksum: bool, fragmented: bool, scratch: Bytes, data: Bytes)
    requires p <= |file| && (!fragmented ==> scratch == [])
    requires var f := ReadPhysical(file, p, checksum); f.drops == [] && (f.typ != END ==> data == f.data)
    ensures var f := ReadPhysical(file, p, checksum);
            ReadLogical(file, p, checksum, fragmented, scratch, []) ==
            if f.typ == END then Logical(Keys.None, f.next, [])
            else if f.typ == TypeOf(!fragmented, true) then Logical(Keys.Some(scratch + data), f.next, [])
            else if f.typ == TypeOf(!fragmented, false)
              then ReadLogical(file, f.next, checksum, true, scratch + data, [])
            else ReadLogical(file, p, checksum, fragmented, scratch, [])
  {
    hide ReadPhysical, ReadLogical;
    LogicalUnfolds(file, p, checksum, fragmented, scratch, [], data);
    var none: seq<nat> := [];
    assert none + none + none == none;
    assert !fragmented ==> scratch + data == data;
  }

  // ------------------------------------------------------------------ the whole log

  /** How many of the records written from `p` on lie whole in the first `size` bytes. */
  function Survivors(p: nat, records: seq<Bytes>, size: nat): (k: nat)
    ensures k <= |records|
    decreases |records|
  {
    if records == [] || size < p + |Encode(p, records[0], true)| then 0
    else 1 + Survivors(p + |Encode(p, records[0], true)|, records[1..], size)
  }

  /** A crash that keeps `k` records whole and no more loses exactly the records after them. */
  lemma {:induction false} SurvivorsAre(p: nat, records: seq<Bytes>, size: nat, k: nat)
    requires k <= |records| && p + |LogFrom(p, records[..k])| <= size
    requires k < |records| ==> size < p + |LogFrom(p, records[..k + 1])|
    ensures Survivors(p, records, size) == k
    decreases |records|
  {
    hide Encode;
    if records != [] {
      var e := Encode(p, records[0], true);
      if k > 0 {
        assert records[..k][0] == records[0] && records[..k][1..] == records[1..][..k - 1];
        if k < |records| {
          assert records[..k + 1][0] == records[0] && records[..k + 1][1..] == records[1..][..k];
        }
        SurvivorsAre(p + |e|, records[1..], size, k - 1);
      } else {
        assert records[..1][0] == records[0] && records[..1][1..] == [];
        assert LogFrom(p, records[..1]) == e + LogFrom(p + |e|, []);
      }
    }
  }

  lemma {:induction false} PrefixReads(file: Bytes, p: nat, records: seq<Bytes>, checksum: bool)
    requires p <= |file| && file[p..] <= LogFrom(p, records)
    ensures ReadAll(file, p, checksum) == (records[..Survivors(p, records, |file|)], [])
    decreases |records|
  {
    hide Encode, ReadLogical;
    AllUnfolds(file, p, checksum);
    hide ReadAll;
    if records == [] {
      NothingReads(file, p, checksum);
    } else {
      var e := Encode(p, records[0], true);
      var tail := LogFrom(p + |e|, records[1..]);
      RecordReads(file, p, records[0], true, tail, checksum, []);
      assert [] + records[0] == records[0];
      if |file| - p >= |e| {
        PrefixSplits(file, p, e, tail);
        PrefixReads(file, p + |e|, records[1..], checksum);
        var k := Survivors(p + |e|, records[1..], |file|);
        assert [records[0]] + records[1..][..k] == records[..k + 1];
        assert Survivors(p, records, |file|) == k + 1;
        assert ReadAll(file, p, checksum).0 == records[..k + 1] && ReadAll(file, p, checksum).1 == [];
      } else {
        assert ReadAll(file, p, checksum).0 == records[..0] && Survivors(p, records, |file|) == 0;
      }
    }
  }

  lemma AllUnfolds(file: Bytes, p: nat, checksum: bool)
    requires p <= |file|
    ensures var r := ReadLogical(file, p, checksum, false, [], []);
            ReadAll(file, p, checksum) ==
            if r.record.None? then ([], r.drops)
            else ([r.record.value] + ReadAll(file, r.next, checksum).0, r.drops + ReadAll(file, r.next, checksum).1)
  {
    hide ReadLogical;
  }

  lemma NothingReads(file: Bytes, p: nat, checksum: bool)
    requires p == |file|
    ensures ReadLogical(file, p, checksum, false, [], []) == Logical(Keys.None, p, [])
  {
  }

  /** Crash recovery: after a crash that keeps only the first `size` bytes of a log, reading it
      returns exactly the records whose last fragment survived whole, and reports no corruption. */
  lemma CrashKeepsWholeRecords(records: seq<Bytes>, size: nat, k: nat, checksum: bool)
    requires size <= |LogFrom(0, records)|
    requires k <= |records| && |LogFrom(0, records[..k])| <= size
    requires k < |records| ==> size < |LogFrom(0, records[..k + 1])|
    ensures ReadAll(LogFrom(0, records)[..size], 0, checksum) == (records[..k], [])
  {
    hide LogFrom, ReadAll;
    var file := LogFrom(0, records)[..size];
    assert file[0..] == file;
    PrefixReads(file, 0, records, checksum);
    SurvivorsAre(0, records, size, k);
  }

  /** Round trip: reading a complete log returns the records written. */
  lemma LogRoundTrip(records: seq<Bytes>, checksum: bool)
    ensures ReadAll(LogFrom(0, records), 0, checksum) == (records, [])
  {
    hide LogFrom, ReadAll;
    var file := LogFrom(0, records);
    assert file[..|file|] == file && records[..|records|] == records;
    CrashKeepsWholeRecords(records, |file|, |records|, checksum);
  }

  /** The writer's appends are what `LogFrom` describes. */
  lemma {:induction false} LogGrows(p: nat, records: seq<Bytes>, record: Bytes)
    ensures LogFrom(p, records + [record]) == LogFrom(p, records) + Encode(p + |LogFrom(p, records)|, record, true)
    decreases |records|
  {
    hide Encode;
    if records == [] {
      assert (records + [record])[1..] == [];
      assert LogFrom(p, [record]) == Encode(p, record, true) + LogFrom(p + |Encode(p, record, true)|, []);
    } else {
      assert (records + [record])[0] == records[0] && (records + [record])[1..] == records[1..] + [record];
      LogGrows(p + |Encode(p, records[0], true)|, records[1..], record);
    }
  }

  method WriteAll(records: seq<Bytes>) returns (file: Bytes)
    ensures file == LogFrom(0, records)
  {
    hide LogFrom, Encode, Writer.Valid;
    var writer := new Writer([]);
    EmptyLog();
    for i := 0 to |records|
      invariant writer.Valid() && writer.file == LogFrom(0, records[..i])
    {
      LogGrows(0, records[..i], records[i]);
      assert records[..i + 1] == records[..i] + [records[i]];
      writer.AddRecord(records[i]);
    }
    assert records[..|records|] == records;
    file := writer.file;
  }

  method ReadEverything(file: Bytes) returns (read: seq<Bytes>, drops: seq<nat>)
    ensures read == ReadAll(file, 0, true).0 && drops == ReadAll(file, 0, true).1
  {
    hide ReadAll, ReadLogical, Reader.Valid, Reader.Position;
    var reader := new Reader(file, true);
    reader.InFile();
    read := [];
    while true
      invariant reader.Valid() && reader.file == file && reader.checksum && 0 <= reader.Position() <= |file|
      invariant ReadAll(file, 0, true).0 == read + ReadAll(file, reader.Position(), true).0
      invariant ReadAll(file, 0, true).1 == reader.drops + ReadAll(file, reader.Position(), true).1
      decreases |file| - reader.Position()
    {
      AllUnfolds(file, reader.Position(), true);
      var record := reader.ReadRecord();
      reader.InFile();
      if record.None? {
        drops := reader.drops;
        assert read + [] == read;
        return;
      }
      read := read + [record.value];
    }
  }

  /** Writer and reader together: of a log cut after `size` bytes, exactly the records whose last
      fragment survived are read back, in order, and no corruption is reported. */
  method WriteThenRead(records: seq<Bytes>, size: nat) returns (read: seq<Bytes>, drops: seq<nat>)
    ensures read == records[..Survivors(0, records, size)] && drops == []
  {
    hide LogFrom, ReadAll, Survivors;
    var written := WriteAll(records);
    var file := if size < |written| then written[..size] else written;
    assert file[0..] == file;
    PrefixReads(file, 0, records, true);
    BeyondTheEnd(0, records, size);
    read, drops := ReadEverything(file);
  }

  lemma {:induction false} BeyondTheEnd(p: nat, records: seq<Bytes>, size: nat)
    ensures size >= p + |LogFrom(p, records)| ==>
            Survivors(p, records, size) == Survivors(p, records, p + |LogFrom(p, records)|)
    decreases |records|
  {
    hide Encode;
    if records != [] {
      BeyondTheEnd(p + |Encode(p, records[0], true)|, records[1..], size);
    }
  }

  lemma EmptyLog()
    ensures LogFrom(0, []) == []
  {
  }
}
