/** Damaged logs (db/log_reader.cc): what a reader that verifies checksums does with a fragment whose checksum does not
    hold, and that it never delivers one. */
module LogDamage {
  import opened Coding
  import Keys
  import Crc
  import opened Log

  // ------------------------------------------------------------------ fragments as bytes

  /** The length field of the header at `p`. */
  function LengthField(file: Bytes, p: nat): nat
    requires p + HEADER <= |file|
  {
    var low: int, high: int := file[p + 4], file[p + 5];
    low + 256 * high
  }

  /** The masked checksum in the header is that of the type byte and the `n` bytes of payload behind it. */
  predicate Intact(file: Bytes, p: nat, n: nat)
    requires p + HEADER + n <= |file|
  {
    Crc.Unmask(DecodeFixed32(file[p..p + 4])) == Crc.Number(Crc.Value(Bits(file[p + 6..p + HEADER + n])))
  }

  /** The end of the 32KB block of `p`, or of the file. */
  function BufferEnd(file: Bytes, p: nat): nat {
    var e := (p / 32768 + 1) * 32768;
    if e < |file| then e else |file|
  }

  lemma BufferEndIs(file: Bytes, p: nat)
    requires p <= |file|
    ensures BufferEnd(file, p) == BlockEnd(file, p)
  {
    assert p == 32768 * (p / 32768) + p % 32768;
  }

  /** A fragment fits into the buffer. */
  predicate FitsBuffer(file: Bytes, p: nat) {
    p + HEADER <= BufferEnd(file, p) <= |file| && p + HEADER + LengthField(file, p) <= BufferEnd(file, p)
  }

  lemma HeaderFields(file: Bytes, p: nat)
    requires p + HEADER <= |file|
    ensures LengthIn(HeaderAt(file, p)) == LengthField(file, p) && HeaderAt(file, p)[6] == file[p + 6]
    ensures HeaderAt(file, p)[..4] == file[p..p + 4]
  {
  }

  lemma HoldsIff(file: Bytes, p: nat)
    requires p + HEADER <= |file| && p + HEADER + LengthField(file, p) <= |file|
    ensures var n := LengthField(file, p);
            ChecksumHolds(HeaderAt(file, p), file[p + HEADER..p + HEADER + n]) <==> Intact(file, p, n)
  {
    hide Crc.Unmask, Crc.Number, Crc.Value, DecodeFixed32;
    var n, header := LengthField(file, p), HeaderAt(file, p);
    assert [header[6]] + file[p + HEADER..p + HEADER + n] == file[p + 6..p + HEADER + n];
    assert header == file[p..p + 4] + header[4..];
    DecodesPrefix(file[p..p + 4], header[4..]);
  }

  // ------------------------------------------------------------------ what damage leads to

  /** A fragment whose checksum does not hold: the rest of its buffer is reported and passed over, together with what a
      record in progress had gathered, and reading goes on behind the buffer. */
  lemma DamagedIsSkipped(file: Bytes, p: nat, fragmented: bool, scratch: Bytes, drops: seq<nat>)
    requires p <= |file| && FitsBuffer(file, p) && !(file[p + 6] == 0 && LengthField(file, p) == 0)
    requires !Intact(file, p, LengthField(file, p))
    ensures var end := BufferEnd(file, p);
            ReadLogical(file, p, true, fragmented, scratch, drops) ==
            ReadLogical(file, end, true, false, if fragmented then [] else scratch,
                        drops + [end - p] + if fragmented then [|scratch|] else [])
  {
    hide ReadLogical, LengthIn, ChecksumHolds, HeaderAt;
    BufferEndIs(file, p);
    HeaderFields(file, p);
    HoldsIff(file, p);
    LogicalUnfolds(file, p, true, fragmented, scratch, drops, []);
  }

  /** A length that leads beyond the buffer: in a whole block the rest is reported and passed over; in the last, short
      one it is taken for a write that a crash cut off, and reading ends. */
  lemma OverlongIsSkipped(file: Bytes, p: nat, checksum: bool, fragmented: bool, scratch: Bytes, drops: seq<nat>)
    requires p <= |file| && p + HEADER <= BufferEnd(file, p) && p + HEADER + LengthField(file, p) > BufferEnd(file, p)
    ensures var end := BufferEnd(file, p);
            ReadLogical(file, p, checksum, fragmented, scratch, drops) ==
            if end % 32768 != 0 then Logical(Keys.None, end, drops)
            else ReadLogical(file, end, checksum, false, if fragmented then [] else scratch,
                             drops + [end - p] + if fragmented then [|scratch|] else [])
  {
    hide ReadLogical, LengthIn, ChecksumHolds, HeaderAt;
    BufferEndIs(file, p);
    HeaderFields(file, p);
    LogicalUnfolds(file, p, checksum, fragmented, scratch, drops, []);
    assert drops + [] + [] == drops;
  }

  /** Zeros where a header is expected, as preallocated space leaves them: passed over without a report. */
  lemma ZerosAreSkipped(file: Bytes, p: nat, checksum: bool, fragmented: bool, scratch: Bytes, drops: seq<nat>)
    requires p <= |file| && p + HEADER <= BufferEnd(file, p) && file[p + 6] == 0 && LengthField(file, p) == 0
    ensures var end := BufferEnd(file, p);
            ReadLogical(file, p, checksum, fragmented, scratch, drops) ==
            ReadLogical(file, end, checksum, false, if fragmented then [] else scratch,
                        drops + if fragmented then [|scratch|] else [])
  {
    hide ReadLogical, LengthIn, ChecksumHolds, HeaderAt;
    BufferEndIs(file, p);
    HeaderFields(file, p);
    LogicalUnfolds(file, p, checksum, fragmented, scratch, drops, []);
    assert drops + [] + (if fragmented then [|scratch|] else []) == drops + if fragmented then [|scratch|] else [];
  }

  /** A fragment that the reader accepts. */
  predicate Accepted(file: Bytes, p: nat, checksum: bool) {
    && p <= |file| && FitsBuffer(file, p) && !(file[p + 6] == 0 && LengthField(file, p) == 0)
    && (checksum ==> Intact(file, p, LengthField(file, p)))
  }

  /** What the reader makes of an accepted fragment. */
  lemma AcceptedIs(file: Bytes, p: nat, checksum: bool)
    requires Accepted(file, p, checksum)
    ensures var n := LengthField(file, p);
            ReadPhysical(file, p, checksum) ==
              Physical(file[p + 6], file[p + HEADER..p + HEADER + n], p + HEADER + n, [])
  {
    hide LengthIn, ChecksumHolds, HeaderAt, Intact;
    BufferEndIs(file, p);
    HeaderFields(file, p);
    HoldsIff(file, p);
  }

  lemma NoDrops(drops: seq<nat>, d: seq<nat>)
    ensures drops + [] + d == drops + d && drops + [] + [] == drops
  {
  }

  /** Type 1 is a whole record; a record in progress is reported, unless nothing was gathered. */
  lemma WholeIsDelivered(file: Bytes, p: nat, checksum: bool, fragmented: bool, scratch: Bytes, drops: seq<nat>)
    requires Accepted(file, p, checksum) && file[p + 6] == 1
    ensures var n := LengthField(file, p);
            ReadLogical(file, p, checksum, fragmented, scratch, drops) ==
            Logical(Keys.Some(file[p + HEADER..p + HEADER + n]), p + HEADER + n,
                    drops + if fragmented && scratch != [] then [|scratch|] else [])
  {
    hide ReadLogical, ReadPhysical;
    AcceptedIs(file, p, checksum);
    LogicalUnfolds(file, p, checksum, fragmented, scratch, drops, ReadPhysical(file, p, checksum).data);
    NoDrops(drops, if fragmented && scratch != [] then [|scratch|] else []);
  }

  /** Type 2 begins a record; one in progress is reported, unless nothing was gathered. */
  lemma FirstBegins(file: Bytes, p: nat, checksum: bool, fragmented: bool, scratch: Bytes, drops: seq<nat>)
    requires Accepted(file, p, checksum) && file[p + 6] == 2
    ensures var n := LengthField(file, p);
            ReadLogical(file, p, checksum, fragmented, scratch, drops) ==
            ReadLogical(file, p + HEADER + n, checksum, true, file[p + HEADER..p + HEADER + n],
                        drops + if fragmented && scratch != [] then [|scratch|] else [])
  {
    hide ReadLogical, ReadPhysical;
    AcceptedIs(file, p, checksum);
    LogicalUnfolds(file, p, checksum, fragmented, scratch, drops, ReadPhysical(file, p, checksum).data);
    NoDrops(drops, if fragmented && scratch != [] then [|scratch|] else []);
  }

  /** Type 3 goes on with a record; without one in progress it is reported. */
  lemma MiddleExtends(file: Bytes, p: nat, checksum: bool, fragmented: bool, scratch: Bytes, drops: seq<nat>)
    requires Accepted(file, p, checksum) && file[p + 6] == 3
    ensures var n := LengthField(file, p);
            ReadLogical(file, p, checksum, fragmented, scratch, drops) ==
            if fragmented
            then ReadLogical(file, p + HEADER + n, checksum, true, scratch + file[p + HEADER..p + HEADER + n], drops)
            else ReadLogical(file, p + HEADER + n, checksum, false, scratch, drops + [n])
  {
    hide ReadLogical, ReadPhysical;
    AcceptedIs(file, p, checksum);
    LogicalUnfolds(file, p, checksum, fragmented, scratch, drops, ReadPhysical(file, p, checksum).data);
    NoDrops(drops, [LengthField(file, p)]);
  }

  /** Type 4 ends a record; without one in progress it is reported. */
  lemma LastEnds(file: Bytes, p: nat, checksum: bool, fragmented: bool, scratch: Bytes, drops: seq<nat>)
    requires Accepted(file, p, checksum) && file[p + 6] == 4
    ensures var n := LengthField(file, p);
            ReadLogical(file, p, checksum, fragmented, scratch, drops) ==
            if fragmented then Logical(Keys.Some(scratch + file[p + HEADER..p + HEADER + n]), p + HEADER + n, drops)
            else ReadLogical(file, p + HEADER + n, checksum, false, scratch, drops + [n])
  {
    hide ReadLogical, ReadPhysical;
    AcceptedIs(file, p, checksum);
    LogicalUnfolds(file, p, checksum, fragmented, scratch, drops, ReadPhysical(file, p, checksum).data);
    NoDrops(drops, [LengthField(file, p)]);
  }

  /** A fragment of no known type is reported, with what a record in progress had gathered. */
  lemma UnknownIsDropped(file: Bytes, p: nat, checksum: bool, fragmented: bool, scratch: Bytes, drops: seq<nat>)
    requires Accepted(file, p, checksum) && (file[p + 6] == 0 || file[p + 6] > 6)
    ensures var n := LengthField(file, p);
            ReadLogical(file, p, checksum, fragmented, scratch, drops) ==
            ReadLogical(file, p + HEADER + n, checksum, false, [], drops + [n + if fragmented then |scratch| else 0])
  {
    hide ReadLogical, ReadPhysical;
    AcceptedIs(file, p, checksum);
    LogicalUnfolds(file, p, checksum, fragmented, scratch, drops, ReadPhysical(file, p, checksum).data);
    NoDrops(drops, [LengthField(file, p) + if fragmented then |scratch| else 0]);
  }

  // ------------------------------------------------------------------ what is delivered

  /** A fragment in the file. */
  datatype Piece = Piece(at: nat, typ: Byte, data: Bytes)

  predicate Sound(file: Bytes, q: Piece) {
    && q.at + HEADER + |q.data| <= |file|
    && LengthField(file, q.at) == |q.data| && file[q.at + 6] == q.typ
    && file[q.at + HEADER..q.at + HEADER + |q.data|] == q.data && Intact(file, q.at, |q.data|)
  }

  function Payload(pieces: seq<Piece>): Bytes {
    if pieces == [] then [] else Payload(pieces[..|pieces| - 1]) + pieces[|pieces| - 1].data
  }

  /** The beginning of a record: a first fragment, then middle ones. */
  ghost predicate Begun(pieces: seq<Piece>) {
    pieces != [] && pieces[0].typ == 2 && forall i :: 0 < i < |pieces| ==> pieces[i].typ == 3
  }

  /** A record: one whole fragment, or a first, middle and a last one. */
  ghost predicate Whole(pieces: seq<Piece>) {
    && pieces != []
    && if |pieces| == 1 then pieces[0].typ == 1
       else Begun(pieces[..|pieces| - 1]) && pieces[|pieces| - 1].typ == 4
  }

  ghost predicate AllSound(file: Bytes, pieces: seq<Piece>, from: nat, to: nat) {
    && (forall i :: 0 <= i < |pieces| ==> Sound(file, pieces[i]))
    && (forall i :: 0 <= i < |pieces| ==> from <= pieces[i].at && pieces[i].at + HEADER + |pieces[i].data| <= to)
    && (forall i, j :: 0 <= i < j < |pieces| ==> pieces[i].at + HEADER + |pieces[i].data| <= pieces[j].at)
  }

  /** What has been gathered of a record in progress. */
  ghost predicate Gathered(file: Bytes, pieces: seq<Piece>, scratch: Bytes, to: nat) {
    Begun(pieces) && AllSound(file, pieces, 0, to) && Payload(pieces) == scratch
  }

  /** A record made of intact fragments of the file, in order. */
  ghost predicate Deliverable(file: Bytes, record: Bytes) {
    exists pieces :: Whole(pieces) && AllSound(file, pieces, 0, |file|) && Payload(pieces) == record
  }

  lemma PayloadGrows(pieces: seq<Piece>, q: Piece)
    ensures Payload(pieces + [q]) == Payload(pieces) + q.data
  {
    assert (pieces + [q])[..|pieces|] == pieces;
  }

  lemma SoundGrows(file: Bytes, pieces: seq<Piece>, q: Piece, to: nat)
    requires AllSound(file, pieces, 0, to) && Sound(file, q) && to <= q.at
    ensures AllSound(file, pieces + [q], 0, q.at + HEADER + |q.data|)
  {
    hide Sound;
    SoundEnds(file, q);
    var all := pieces + [q];
    forall i | 0 <= i < |all| ensures Sound(file, all[i]) {}
  }

  lemma SoundEnds(file: Bytes, q: Piece)
    requires Sound(file, q)
    ensures q.at + HEADER + |q.data| <= |file|
  {
  }

  lemma ParsedIsSound(file: Bytes, p: nat)
    requires p <= |file| && p + HEADER <= BlockEnd(file, p)
    ensures var f := ParseAt(file, p, BlockEnd(file, p), true);
            f.typ == 5 || f.typ == 6 ||
            (f.next == p + HEADER + |f.data| && Sound(file, Piece(p, f.typ, f.data)))
  {
    hide Intact, LengthIn, ChecksumHolds, HeaderAt, BlockEnd;
    HeaderFields(file, p);
    var n := LengthField(file, p);
    if p + HEADER + n <= BlockEnd(file, p) {
      HoldsIff(file, p);
      assert |file[p + HEADER..p + HEADER + n]| == n;
    }
  }

  /** What the reader reads of a fragment that is no damage and no end. */
  lemma ReadIsSound(file: Bytes, p: nat)
    requires p <= |file|
    ensures var f := ReadPhysical(file, p, true);
            f.typ == 5 || f.typ == 6 ||
            (f.next >= HEADER + |f.data| && f.next - HEADER - |f.data| >= p &&
             Sound(file, Piece(f.next - HEADER - |f.data|, f.typ, f.data)))
    decreases |file| - p
  {
    hide Sound, ParseAt, LengthField;
    var end := BlockEnd(file, p);
    if end - p >= HEADER {
      ParsedIsSound(file, p);
    } else if end < |file| {
      ReadIsSound(file, end);
    }
  }

  lemma WholePiece(q: Piece)
    requires q.typ == 1
    ensures Whole([q]) && Payload([q]) == q.data
  {
    PayloadGrows([], q);
    assert [] + [q] == [q];
  }

  lemma FirstPiece(file: Bytes, q: Piece)
    requires Sound(file, q)
    ensures AllSound(file, [q], 0, q.at + HEADER + |q.data|) && Payload([q]) == q.data && (q.typ == 2 ==> Begun([q]))
  {
    hide Sound;
    SoundGrows(file, [], q, 0);
    PayloadGrows([], q);
    assert [] + [q] == [q];
  }

  lemma BegunGrows(pieces: seq<Piece>, q: Piece)
    requires Begun(pieces)
    ensures q.typ == 3 ==> Begun(pieces + [q])
    ensures q.typ == 4 ==> Whole(pieces + [q])
  {
    assert (pieces + [q])[..|pieces|] == pieces;
  }

  lemma SoundWidens(file: Bytes, pieces: seq<Piece>, to: nat, more: nat)
    requires AllSound(file, pieces, 0, to) && to <= more
    ensures AllSound(file, pieces, 0, more)
  {
    hide Sound;
  }

  /** Whatever the file holds, a record is delivered only if it is made of fragments whose checksums hold. */
  lemma {:induction false} OnlySoundIsDelivered(file: Bytes, p: nat, fragmented: bool, scratch: Bytes, drops: seq<nat>,
                                                pieces: seq<Piece>)
    requires p <= |file| && (fragmented ==> Gathered(file, pieces, scratch, p))
    ensures var r := ReadLogical(file, p, true, fragmented, scratch, drops);
            r.record.Some? ==> Deliverable(file, r.record.value)
    decreases |file| - p
  {
    hide Sound, Gathered, Deliverable, ReadLogical, ReadPhysical;
    var f := ReadPhysical(file, p, true);
    ReadIsSound(file, p);
    LogicalUnfolds(file, p, true, fragmented, scratch, drops, f.data);
    var o := Assemble(f.typ, f.data, fragmented, scratch);
    if f.typ != END {
      if o.More? {
        var q := if f.typ == BAD then Piece(0, 0, []) else Piece(f.next - HEADER - |f.data|, f.typ, f.data);
        var next := if f.typ == FIRST then [q] else pieces + [q];
        if o.fragmented { GathersMore(file, p, f, fragmented, scratch, pieces, next); }
        OnlySoundIsDelivered(file, f.next, o.fragmented, o.scratch, drops + f.drops + o.drops, next);
      } else {
        DeliversSound(file, p, f, fragmented, scratch, pieces);
      }
    }
  }

  lemma GathersMore(file: Bytes, p: nat, f: Physical, fragmented: bool, scratch: Bytes, pieces: seq<Piece>,
                    next: seq<Piece>)
    requires p <= f.next <= |file| && f.next >= HEADER + |f.data| && f.next - HEADER - |f.data| >= p
    requires Sound(file, Piece(f.next - HEADER - |f.data|, f.typ, f.data))
    requires f.typ == FIRST || (f.typ == MIDDLE && fragmented && Gathered(file, pieces, scratch, p))
    requires var q := Piece(f.next - HEADER - |f.data|, f.typ, f.data);
             next == if f.typ == FIRST then [q] else pieces + [q]
    ensures Gathered(file, next, if f.typ == FIRST then f.data else scratch + f.data, f.next)
  {
    hide Sound;
    var q := Piece(f.next - HEADER - |f.data|, f.typ, f.data);
    if f.typ == FIRST {
      FirstPiece(file, q);
    } else {
      SoundGrows(file, pieces, q, p);
      PayloadGrows(pieces, q);
      BegunGrows(pieces, q);
    }
  }

  lemma DeliversSound(file: Bytes, p: nat, f: Physical, fragmented: bool, scratch: Bytes, pieces: seq<Piece>)
    requires p <= f.next <= |file| && f.next >= HEADER + |f.data| && f.next - HEADER - |f.data| >= p
    requires Sound(file, Piece(f.next - HEADER - |f.data|, f.typ, f.data))
    requires f.typ == FULL || (f.typ == LAST && fragmented && Gathered(file, pieces, scratch, p))
    ensures Deliverable(file, if f.typ == FULL then f.data else scratch + f.data)
  {
    hide Sound;
    var q := Piece(f.next - HEADER - |f.data|, f.typ, f.data);
    if f.typ == FULL {
      FirstPiece(file, q);
      WholePiece(q);
      SoundWidens(file, [q], f.next, |file|);
      assert Whole([q]) && AllSound(file, [q], 0, |file|) && Payload([q]) == f.data;
    } else {
      var all := pieces + [q];
      SoundGrows(file, pieces, q, p);
      PayloadGrows(pieces, q);
      BegunGrows(pieces, q);
      SoundWidens(file, all, f.next, |file|);
      assert Whole(all) && AllSound(file, all, 0, |file|) && Payload(all) == scratch + f.data;
    }
  }

  /** No record with a damaged fragment is ever read from a log, whatever its bytes. */
  lemma {:induction false} AllReadIsSound(file: Bytes, p: nat)
    requires p <= |file|
    ensures forall r :: r in ReadAll(file, p, true).0 ==> Deliverable(file, r)
    decreases |file| - p
  {
    hide Deliverable, ReadLogical;
    var r := ReadLogical(file, p, true, false, [], []);
    OnlySoundIsDelivered(file, p, false, [], [], []);
    if r.record.Some? { AllReadIsSound(file, r.next); }
  }
}
