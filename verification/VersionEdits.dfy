/** Version edits as manifest records (db/version_edit.cc). */
module VersionEdits {
  import opened Coding
  import opened Keys
  import opened Versions

  datatype FileMeta = FileMeta(number: nat, size: nat, smallest: Bytes, largest: Bytes)

  datatype Edit = Edit(comparator: Option<Bytes>, logNumber: Option<nat>, prevLogNumber: Option<nat>,
    nextFile: Option<nat>,
                       lastSequence: Option<nat>, compactPointers: seq<(nat, Bytes)>, deletedFiles: set<(nat, nat)>,
                       newFiles: seq<(nat, FileMeta)>)

  /** One tagged field of a record. */
  datatype Field =
    | Comparator(name: Bytes)
    | LogNumber(n: nat)
    | NextFileNumber(n: nat)
    | LastSequence(n: nat)
    | CompactPointer(level: nat, key: Bytes)
    | DeletedFile(level: nat, number: nat)
    | NewFile(level: nat, meta: FileMeta)
    | PrevLogNumber(n: nat)

  // ------------------------------------------------------------------ fields

  /** What fits the encoding: 64-bit numbers, lengths and levels of 32 bits. */
  predicate Fits(f: Field) {
    match f
    case Comparator(name) => |name| < WORD
    case CompactPointer(level, key) => level < WORD && |key| < WORD
    case DeletedFile(level, number) => level < WORD && number < LONG
    case NewFile(level, m) =>
      level < WORD && m.number < LONG && m.size < LONG && |m.smallest| < WORD && |m.largest| < WORD
    case _ => f.n < LONG
  }

  /** Fields that carry a level carry one that exists. */
  predicate LevelOk(f: Field) {
    f.CompactPointer? || f.DeletedFile? || f.NewFile? ==> f.level < NUM_LEVELS
  }

  function Tag(f: Field): (t: Byte) {
    match f
    case Comparator(_) => 1
    case LogNumber(_) => 2
    case NextFileNumber(_) => 3
    case LastSequence(_) => 4
    case CompactPointer(_, _) => 5
    case DeletedFile(_, _) => 6
    case NewFile(_, _) => 7
    case PrevLogNumber(_) => 9
  }

  function EncodeBody(f: Field): Bytes {
    match f
    case Comparator(name) => Prefixed(name)
    case CompactPointer(level, key) => Varint(level) + Prefixed(key)
    case DeletedFile(level, number) => Varint(level) + Varint(number)
    case NewFile(level, m) => Varint(level) + Varint(m.number) + Varint(m.size) + Prefixed(m.smallest) +
      Prefixed(m.largest)
    case _ => Varint(f.n)
  }

  function EncodeField(f: Field): (b: Bytes)
    ensures b != []
  {
    Varint(Tag(f)) + EncodeBody(f)
  }

  function GetLevel(input: Bytes): Parsed<nat> {
    var p := GetVarint32(input);
    if p.Parsed? && p.value < NUM_LEVELS then p else Failed
  }

  function ParseNewFile(level: nat, input: Bytes): Parsed<Field> {
    var number := GetVarint64(input);
    if number.Failed? then Failed else
    var size := GetVarint64(number.rest);
    if size.Failed? then Failed else
    var smallest := GetPrefixed(size.rest);
    if smallest.Failed? then Failed else
    var largest := GetPrefixed(smallest.rest);
    if largest.Failed? then Failed else
    Parsed(NewFile(level, FileMeta(number.value, size.value, smallest.value, largest.value)), largest.rest)
  }

  function ParseLevelField(tag: nat, input: Bytes): Parsed<Field> {
    var level := GetLevel(input);
    if level.Failed? then Failed
    else if tag == 5 then
      var key := GetPrefixed(level.rest);
      if key.Failed? then Failed else Parsed(CompactPointer(level.value, key.value), key.rest)
    else if tag == 6 then
      var number := GetVarint64(level.rest);
      if number.Failed? then Failed else Parsed(DeletedFile(level.value, number.value), number.rest)
    else ParseNewFile(level.value, level.rest)
  }

  /** What DecodeFrom reads after a tag. */
  function ParseBody(tag: nat, input: Bytes): (p: Parsed<Field>)
  {
    if tag == 1 then
      var name := GetPrefixed(input);
      if name.Failed? then Failed else Parsed(Comparator(name.value), name.rest)
    else if tag == 2 || tag == 3 || tag == 4 || tag == 9 then
      var n := GetVarint64(input);
      if n.Failed? then Failed
      else Parsed(if tag == 2 then LogNumber(n.value) else if tag == 3 then NextFileNumber(n.value)
                  else if tag == 4 then LastSequence(n.value) else PrevLogNumber(n.value), n.rest)
    else if tag == 5 || tag == 6 || tag == 7 then ParseLevelField(tag, input)
    else Failed
  }

  lemma LevelReads(level: nat, tail: Bytes)
    requires level < WORD
    ensures GetLevel(Varint(level) + tail) == if level < NUM_LEVELS then Parsed(level, tail) else Failed
  {
    hide GetVarint32, Varint;
    Varint32RoundTrip(level, tail);
  }

  lemma NewFileReads(level: nat, m: FileMeta, tail: Bytes)
    requires Fits(NewFile(level, m))
    ensures ParseNewFile(level,
            Varint(m.number) + Varint(m.size) + Prefixed(m.smallest) + Prefixed(m.largest) + tail) ==
            Parsed(NewFile(level, m), tail)
  {
    hide GetVarint64, Varint, GetPrefixed, Prefixed;
    var d := Prefixed(m.largest) + tail;
    var c := Prefixed(m.smallest) + d;
    var b := Varint(m.size) + c;
    assert Varint(m.number) + Varint(m.size) + Prefixed(m.smallest) + Prefixed(m.largest) + tail ==
           Varint(m.number) + b;
    Varint64RoundTrip(m.number, b);
    Varint64RoundTrip(m.size, c);
    PrefixedRoundTrip(m.smallest, d);
    PrefixedRoundTrip(m.largest, tail);
  }

  /** A field reads back, whatever follows it, exactly when its level exists. */
  lemma BodyReads(f: Field, tail: Bytes)
    requires Fits(f)
    ensures ParseBody(Tag(f), EncodeBody(f) + tail) == if LevelOk(f) then Parsed(f, tail) else Failed
  {
    hide GetVarint32, GetVarint64, Varint, GetPrefixed, Prefixed, GetLevel, ParseNewFile;
    match f
    case Comparator(name) => PrefixedRoundTrip(name, tail);
    case CompactPointer(level, key) =>
      assert EncodeBody(f) + tail == Varint(level) + (Prefixed(key) + tail);
      LevelReads(level, Prefixed(key) + tail);
      PrefixedRoundTrip(key, tail);
    case DeletedFile(level, number) =>
      assert EncodeBody(f) + tail == Varint(level) + (Varint(number) + tail);
      LevelReads(level, Varint(number) + tail);
      Varint64RoundTrip(number, tail);
    case NewFile(level, m) =>
      var rest := Varint(m.number) + Varint(m.size) + Prefixed(m.smallest) + Prefixed(m.largest) + tail;
      assert EncodeBody(f) + tail == Varint(level) + rest;
      LevelReads(level, rest);
      NewFileReads(level, m, tail);
    case _ => Varint64RoundTrip(f.n, tail);
  }

  // ------------------------------------------------------------------ records

  function EncodeFields(fs: seq<Field>): Bytes {
    if fs == [] then [] else EncodeField(fs[0]) + EncodeFields(fs[1..])
  }

  lemma {:induction false} EncodeFieldsConcat(a: seq<Field>, b: seq<Field>)
    ensures EncodeFields(a + b) == EncodeFields(a) + EncodeFields(b)
  {
    if a == [] {
      assert a + b == b;
    } else {
      hide EncodeField;
      assert (a + b)[1..] == a[1..] + b;
      EncodeFieldsConcat(a[1..], b);
    }
  }

  /** The effect of a field on the edit being decoded. */
  function Put(e: Edit, f: Field): Edit {
    match f
    case Comparator(name) => e.(comparator := Some(name))
    case LogNumber(n) => e.(logNumber := Some(n))
    case NextFileNumber(n) => e.(nextFile := Some(n))
    case LastSequence(n) => e.(lastSequence := Some(n))
    case CompactPointer(level, key) => e.(compactPointers := e.compactPointers + [(level, key)])
    case DeletedFile(level, number) => e.(deletedFiles := e.deletedFiles + {(level, number)})
    case NewFile(level, m) => e.(newFiles := e.newFiles + [(level, m)])
    case PrevLogNumber(n) => e.(prevLogNumber := Some(n))
  }

  function PutAll(e: Edit, fs: seq<Field>): Edit
    decreases |fs|
  {
    if fs == [] then e else PutAll(Put(e, fs[0]), fs[1..])
  }

  lemma {:induction false} PutAllConcat(e: Edit, a: seq<Field>, b: seq<Field>)
    ensures PutAll(e, a + b) == PutAll(PutAll(e, a), b)
    decreases |a|
  {
    hide Put;
    if a == [] {
      assert a + b == b;
    } else {
      assert (a + b)[1..] == a[1..] + b && (a + b)[0] == a[0];
      PutAllConcat(Put(e, a[0]), a[1..], b);
      assert PutAll(e, a + b) == PutAll(Put(e, a[0]), a[1..] + b);
    }
  }

  lemma ParseTakes(tag: nat, input: Bytes)
    ensures var p := ParseBody(tag, input); p.Parsed? ==> |p.rest| < |input|
  {
    hide GetVarint32, GetVarint64, GetPrefixed;
    ReadersTake(input);
    var level := GetLevel(input);
    if level.Parsed? {
      ReadersTake(level.rest);
      NewFileTakes(level.value, level.rest);
    }
  }

  lemma NewFileTakes(level: nat, input: Bytes)
    ensures var p := ParseNewFile(level, input); p.Parsed? ==> |p.rest| < |input|
  {
    hide GetVarint64, GetPrefixed;
    ReadersTake(input);
    var number := GetVarint64(input);
    if number.Parsed? {
      ReadersTake(number.rest);
      var size := GetVarint64(number.rest);
      if size.Parsed? {
        ReadersTake(size.rest);
        var smallest := GetPrefixed(size.rest);
        if smallest.Parsed? { ReadersTake(smallest.rest); }
      }
    }
  }

  /** DecodeFrom: the edit decoded, and whether the record was well formed to its end. */
  function Decode(e: Edit, input: Bytes): (Edit, bool)
    decreases |input|
  {
    if input == [] then (e, true) else
    match GetVarint32(input)
    case Failed => (e, false)
    case Parsed(tag, rest) =>
      ReadersTake(input);
      ParseTakes(tag, rest);
      match ParseBody(tag, rest)
      case Failed => (e, false)
      case Parsed(f, more) => Decode(Put(e, f), more)
  }

  lemma DecodeStep(e: Edit, f: Field, tail: Bytes)
    requires Fits(f)
    ensures Decode(e, EncodeField(f) + tail) == if LevelOk(f) then Decode(Put(e, f), tail) else (e, false)
  {
    hide GetVarint32, Varint, EncodeBody, ParseBody, Put, Fits;
    var input := EncodeField(f) + tail;
    assert input == Varint(Tag(f)) + (EncodeBody(f) + tail);
    Varint32RoundTrip(Tag(f), EncodeBody(f) + tail);
    BodyReads(f, tail);
  }

  ghost predicate AllFit(fs: seq<Field>) {
    forall f :: f in fs ==> Fits(f)
  }

  ghost predicate LevelsOk(fs: seq<Field>) {
    forall f :: f in fs ==> LevelOk(f)
  }

  lemma FirstField(fs: seq<Field>)
    requires fs != [] && AllFit(fs)
    ensures Fits(fs[0]) && AllFit(fs[1..]) && (LevelsOk(fs) <==> LevelOk(fs[0]) && LevelsOk(fs[1..]))
  {
    hide Fits, LevelOk;
    assert fs == [fs[0]] + fs[1..];
  }

  lemma NothingDecodes(e: Edit)
    ensures Decode(e, EncodeFields([])) == (e, true) && PutAll(e, []) == e && LevelsOk([])
  {
  }

  lemma FieldsUnfold(e: Edit, fs: seq<Field>)
    requires fs != []
    ensures EncodeFields(fs) == EncodeField(fs[0]) + EncodeFields(fs[1..])
    ensures PutAll(e, fs) == PutAll(Put(e, fs[0]), fs[1..])
  {
  }

  /** Decoding the fields of a record puts them one after another; it succeeds exactly when all levels exist. */
  lemma {:induction false} DecodeFields(e: Edit, fs: seq<Field>)
    requires AllFit(fs)
    ensures Decode(e, EncodeFields(fs)).1 <==> LevelsOk(fs)
    ensures LevelsOk(fs) ==> Decode(e, EncodeFields(fs)).0 == PutAll(e, fs)
    decreases |fs|
  {
    hide Put, EncodeField, LevelOk, Fits, Decode, LevelsOk, AllFit, PutAll, EncodeFields;
    if fs == [] {
      NothingDecodes(e);
    } else {
      FieldsUnfold(e, fs);
      FirstField(fs);
      DecodeStep(e, fs[0], EncodeFields(fs[1..]));
      DecodeFields(Put(e, fs[0]), fs[1..]);
    }
  }

  // ------------------------------------------------------------------ EncodeTo

  /** The fields before the lists. */
  function Head(e: Edit): seq<Field> {
    (if e.comparator.Some? then [Comparator(e.comparator.value)] else [])
    + (if e.logNumber.Some? then [LogNumber(e.logNumber.value)] else [])
    + (if e.prevLogNumber.Some? then [PrevLogNumber(e.prevLogNumber.value)] else [])
    + (if e.nextFile.Some? then [NextFileNumber(e.nextFile.value)] else [])
    + (if e.lastSequence.Some? then [LastSequence(e.lastSequence.value)] else [])
  }

  function Pointers(ps: seq<(nat, Bytes)>): seq<Field> {
    if ps == [] then [] else Pointers(ps[..|ps| - 1]) + [CompactPointer(ps[|ps| - 1].0, ps[|ps| - 1].1)]
  }

  function Deleted(ds: seq<(nat, nat)>): seq<Field> {
    if ds == [] then [] else Deleted(ds[..|ds| - 1]) + [DeletedFile(ds[|ds| - 1].0, ds[|ds| - 1].1)]
  }

  function Added(fs: seq<(nat, FileMeta)>): seq<Field> {
    if fs == [] then [] else Added(fs[..|fs| - 1]) + [NewFile(fs[|fs| - 1].0, fs[|fs| - 1].1)]
  }

  /** All fields of an edit, its deleted files in the order `ds`. */
  function Fields(e: Edit, ds: seq<(nat, nat)>): seq<Field> {
    Head(e) + Pointers(e.compactPointers) + Deleted(ds) + Added(e.newFiles)
  }

  ghost predicate Enumerates(ds: seq<(nat, nat)>, s: set<(nat, nat)>) {
    forall d :: d in ds <==> d in s
  }

  /** An edit as Clear leaves it: the compaction pointers are not cleared. */
  function Cleared(e: Edit): Edit {
    Edit(None, None, None, None, None, e.compactPointers, {}, [])
  }

  lemma {:induction false} PutPointers(e: Edit, ps: seq<(nat, Bytes)>)
    ensures PutAll(e, Pointers(ps)) == e.(compactPointers := e.compactPointers + ps)
  {
    if ps == [] {
      assert e.compactPointers + [] == e.compactPointers;
    } else {
      var n := |ps| - 1;
      PutPointers(e, ps[..n]);
      PutLast(e, Pointers(ps[..n]), CompactPointer(ps[n].0, ps[n].1));
      assert e.compactPointers + ps[..n] + [ps[n]] == e.compactPointers + ps;
    }
  }

  lemma {:induction false} PutDeleted(e: Edit, ds: seq<(nat, nat)>)
    ensures PutAll(e, Deleted(ds)) == e.(deletedFiles := e.deletedFiles + set d | d in ds)
  {
    if ds == [] {
      assert e.deletedFiles + (set d | d in ds) == e.deletedFiles;
    } else {
      var n := |ds| - 1;
      PutDeleted(e, ds[..n]);
      PutLast(e, Deleted(ds[..n]), DeletedFile(ds[n].0, ds[n].1));
      assert ds == ds[..n] + [ds[n]];
      assert (set d | d in ds) == (set d | d in ds[..n]) + {ds[n]};
      assert e.deletedFiles + (set d | d in ds[..n]) + {ds[n]} == e.deletedFiles + (set d | d in ds);
    }
  }

  lemma {:induction false} PutAdded(e: Edit, fs: seq<(nat, FileMeta)>)
    ensures PutAll(e, Added(fs)) == e.(newFiles := e.newFiles + fs)
  {
    if fs == [] {
      assert e.newFiles + [] == e.newFiles;
    } else {
      var n := |fs| - 1;
      PutAdded(e, fs[..n]);
      PutLast(e, Added(fs[..n]), NewFile(fs[n].0, fs[n].1));
      assert e.newFiles + fs[..n] + [fs[n]] == e.newFiles + fs;
    }
  }

  lemma PutLast(e: Edit, fs: seq<Field>, f: Field)
    ensures PutAll(e, fs + [f]) == Put(PutAll(e, fs), f)
  {
    hide Put;
    PutAllConcat(e, fs, [f]);
    assert PutAll(PutAll(e, fs), [f]) == PutAll(Put(PutAll(e, fs), f), []);
  }

  lemma PutHead(e: Edit, c: Edit)
    requires c == Cleared(c)
    ensures PutAll(c, Head(e)) ==
            Edit(e.comparator, e.logNumber, e.prevLogNumber, e.nextFile, e.lastSequence, c.compactPointers, {}, [])
  {
    hide PutAll;
    var a := if e.comparator.Some? then [Comparator(e.comparator.value)] else [];
    var b := if e.logNumber.Some? then [LogNumber(e.logNumber.value)] else [];
    var d := if e.prevLogNumber.Some? then [PrevLogNumber(e.prevLogNumber.value)] else [];
    var n := if e.nextFile.Some? then [NextFileNumber(e.nextFile.value)] else [];
    var l := if e.lastSequence.Some? then [LastSequence(e.lastSequence.value)] else [];
    PutAllConcat(c, a + b + d + n, l);
    PutAllConcat(c, a + b + d, n);
    PutAllConcat(c, a + b, d);
    PutAllConcat(c, a, b);
    PutOptional(c, a);
    var c1 := PutAll(c, a);
    PutOptional(c1, b);
    var c2 := PutAll(c1, b);
    PutOptional(c2, d);
    var c3 := PutAll(c2, d);
    PutOptional(c3, n);
    PutOptional(PutAll(c3, n), l);
  }

  lemma PutOptional(e: Edit, fs: seq<Field>)
    requires |fs| <= 1
    ensures PutAll(e, fs) == if fs == [] then e else Put(e, fs[0])
  {
    hide Put;
    if fs != [] { assert PutAll(e, fs) == PutAll(Put(e, fs[0]), []); }
  }

  /** What decoding an encoded edit yields: the edit, after the compaction pointers that were there
      before; and it succeeds exactly when all levels exist. */
  lemma DecodeEncoded(before: Edit, e: Edit, ds: seq<(nat, nat)>)
    requires Enumerates(ds, e.deletedFiles) && AllFit(Fields(e, ds))
    ensures var (r, ok) := Decode(Cleared(before), EncodeFields(Fields(e, ds)));
            && (ok <==> LevelsOk(Fields(e, ds)))
            && (ok ==> r == e.(compactPointers := before.compactPointers + e.compactPointers))
  {
    hide Decode, EncodeFields, AllFit, LevelsOk, Head, Pointers, Deleted, Added, PutAll;
    var c := Cleared(before);
    DecodeFields(c, Fields(e, ds));
    PutAllConcat(c, Head(e) + Pointers(e.compactPointers) + Deleted(ds), Added(e.newFiles));
    PutAllConcat(c, Head(e) + Pointers(e.compactPointers), Deleted(ds));
    PutAllConcat(c, Head(e), Pointers(e.compactPointers));
    PutHead(e, c);
    var h := PutAll(c, Head(e));
    PutPointers(h, e.compactPointers);
    var p := PutAll(h, Pointers(e.compactPointers));
    PutDeleted(p, ds);
    PutAdded(PutAll(p, Deleted(ds)), e.newFiles);
    assert {} + (set d | d in ds) == e.deletedFiles;
    assert [] + e.newFiles == e.newFiles;
  }

  // ------------------------------------------------------------------ the class

  class VersionEdit {
    var comparator: Option<Bytes>
    var logNumber: Option<nat>
    var prevLogNumber: Option<nat>
    var nextFile: Option<nat>
    var lastSequence: Option<nat>
    var compactPointers: seq<(nat, Bytes)>
    var deletedFiles: set<(nat, nat)>
    var newFiles: seq<(nat, FileMeta)>

    function State(): Edit
      reads this
    {
      Edit(comparator, logNumber, prevLogNumber, nextFile, lastSequence, compactPointers, deletedFiles, newFiles)
    }

    constructor ()
      ensures State() == Edit(None, None, None, None, None, [], {}, [])
    {
      comparator, logNumber, prevLogNumber, nextFile, lastSequence := None, None, None, None, None;
      compactPointers, deletedFiles, newFiles := [], {}, [];
    }

    method Clear()
      modifies this
      ensures State() == Cleared(old(State()))
    {
      comparator, logNumber, prevLogNumber, nextFile, lastSequence := None, None, None, None, None;
      deletedFiles, newFiles := {}, [];
    }

    /** `ds` is the order in which the set of deleted files is walked. */
    method EncodeTo(dst: Bytes, ds: seq<(nat, nat)>) returns (record: Bytes)
      requires Enumerates(ds, deletedFiles) && AllFit(Fields(State(), ds))
      ensures record == dst + EncodeFields(Fields(State(), ds))
    {
      hide Fits, EncodeFields, Pointers, Deleted, Added, Head;
      var fs := Fields(State(), ds);
      record := dst;
      PutOne(dst, [], LogNumber(0));
      for i := 0 to |fs|
        invariant record == dst + EncodeFields(fs[..i])
      {
        assert fs[..i + 1] == fs[..i] + [fs[i]] && fs[i] in fs;
        PutOne(dst, fs[..i], fs[i]);
        record := PutField(record, fs[i]);
      }
      assert fs[..|fs|] == fs;
    }

    method DecodeFrom(src: Bytes) returns (ok: bool)
      modifies this
      ensures (State(), ok) == Decode(Cleared(old(State())), src)
    {
      hide ParseBody, GetVarint32, Put;
      Clear();
      var input := src;
      while true
        invariant Decode(State(), input) == Decode(Cleared(old(State())), src)
        decreases |input|
      {
        var tag := GetVarint32Ptr(input);
        ReadersTake(input);
        NothingToRead();
        if tag.Failed? {
          // At the end of the record, or an invalid tag.
          return input == [];
        }
        ParseTakes(tag.value, tag.rest);
        var p := ParseBody(tag.value, tag.rest);
        if p.Failed? {
          return false;
        }
        Set(p.value);
        input := p.rest;
      }
    }

    method Set(f: Field)
      modifies this
      ensures State() == Put(old(State()), f)
    {
      match f
      case Comparator(name) => comparator := Some(name);
      case LogNumber(n) => logNumber := Some(n);
      case NextFileNumber(n) => nextFile := Some(n);
      case LastSequence(n) => lastSequence := Some(n);
      case CompactPointer(level, key) => compactPointers := compactPointers + [(level, key)];
      case DeletedFile(level, number) => deletedFiles := deletedFiles + {(level, number)};
      case NewFile(level, m) => newFiles := newFiles + [(level, m)];
      case PrevLogNumber(n) => prevLogNumber := Some(n);
    }
  }

  lemma NothingToRead()
    ensures GetVarint32([]) == Failed
  {
  }

  method PutPrefixed(dst: Bytes, s: Bytes) returns (r: Bytes)
    requires |s| < WORD
    ensures r == dst + Prefixed(s)
  {
    var len := EncodeVarint32(|s|);
    r := dst + len + s;
    assert r == dst + (len + s);
  }

  /** Append one field. */
  method PutField(dst: Bytes, f: Field) returns (r: Bytes)
    requires Fits(f)
    ensures r == dst + EncodeField(f)
  {
    hide Varint, Prefixed;
    var tag := EncodeVarint32(Tag(f));
    r := PutBody(dst + tag, f);
    assert r == dst + (tag + EncodeBody(f));
  }

  method PutBody(dst: Bytes, f: Field) returns (r: Bytes)
    requires Fits(f)
    ensures r == dst + EncodeBody(f)
  {
    hide Varint, Prefixed;
    match f {
      case Comparator(name) => r := PutPrefixed(dst, name);
      case CompactPointer(level, key) =>
        var v := EncodeVarint32(level);
        r := PutPrefixed(dst + v, key);
        assert r == dst + (v + Prefixed(key));
      case DeletedFile(level, number) =>
        var v := EncodeVarint32(level);
        var n := EncodeVarint64(number);
        r := dst + v + n;
        assert r == dst + (v + n);
      case NewFile(level, m) =>
        var v := EncodeVarint32(level);
        var n := EncodeVarint64(m.number);
        var z := EncodeVarint64(m.size);
        r := PutPrefixed(dst + v + n + z, m.smallest);
        r := PutPrefixed(r, m.largest);
        assert r == dst + (v + n + z + Prefixed(m.smallest) + Prefixed(m.largest));
      case _ =>
        var n := EncodeVarint64(f.n);
        r := dst + n;
    }
  }

  lemma PutOne(dst: Bytes, fs: seq<Field>, f: Field)
    ensures dst + EncodeFields(fs + [f]) == dst + EncodeFields(fs) + EncodeField(f)
    ensures dst + EncodeFields([]) == dst
  {
    hide EncodeField;
    EncodeFieldsConcat(fs, [f]);
    assert EncodeFields([f]) == EncodeField(f) + EncodeFields([f][1..]);
  }
}
