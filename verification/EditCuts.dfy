/** Version edits that are cut short (db/version_edit.cc DecodeFrom): a record that ends within a field fails, and one
    that ends between two fields does not. */
module EditCuts {
  import opened Coding
  import opened Keys
  import opened VersionEdits
  import BadInputs

  /** The part of `a + b` up to `k`. */
  lemma CutAt(a: Bytes, b: Bytes, k: nat)
    requires k <= |a| + |b|
    ensures (a + b)[..k] == if k <= |a| then a[..k] else a + b[..k - |a|]
    ensures k == |a| ==> (a + b)[..k] == a + b[..0]
  {
  }

  lemma CutNumber(v: nat, k: nat)
    requires k < |Varint(v)|
    ensures GetVarint32(Varint(v)[..k]) == Failed && GetVarint64(Varint(v)[..k]) == Failed
    ensures GetLevel(Varint(v)[..k]) == Failed
  {
    hide Varint, Groups;
    TruncatedVarintFails(v, k, 5);
    TruncatedVarintFails(v, k, 10);
  }

  /** A number and what follows it, cut. */
  lemma CutAfterNumber(v: nat, b: Bytes, k: nat)
    requires v < LONG && k < |Varint(v) + b|
    ensures var p := GetVarint64((Varint(v) + b)[..k]);
            p == Failed || (k >= |Varint(v)| && p == Parsed(v, b[..k - |Varint(v)|]))
  {
    hide Varint, GetVarint64;
    CutAt(Varint(v), b, k);
    if k < |Varint(v)| {
      CutNumber(v, k);
    } else {
      Varint64RoundTrip(v, b[..k - |Varint(v)|]);
    }
  }

  /** A string and what follows it, cut. */
  lemma CutAfterString(s: Bytes, b: Bytes, k: nat)
    requires |s| < WORD && k < |Prefixed(s) + b|
    ensures var p := GetPrefixed((Prefixed(s) + b)[..k]);
            p == Failed || (k >= |Prefixed(s)| && p == Parsed(s, b[..k - |Prefixed(s)|]))
  {
    hide Prefixed, GetPrefixed;
    CutAt(Prefixed(s), b, k);
    if k < |Prefixed(s)| {
      BadInputs.CutStringFails(s, k);
    } else {
      PrefixedRoundTrip(s, b[..k - |Prefixed(s)|]);
    }
  }

  lemma CutAfterLevel(level: nat, b: Bytes, k: nat)
    requires level < WORD && k < |Varint(level) + b|
    ensures var p := GetLevel((Varint(level) + b)[..k]);
            p == Failed || (k >= |Varint(level)| && p == Parsed(level, b[..k - |Varint(level)|]))
  {
    hide Varint, GetLevel;
    CutAt(Varint(level), b, k);
    if k < |Varint(level)| {
      CutNumber(level, k);
    } else {
      LevelReads(level, b[..k - |Varint(level)|]);
    }
  }

  lemma CutNewFileFails(level: nat, m: FileMeta, k: nat)
    requires Fits(NewFile(level, m))
    requires k < |Varint(m.number) + (Varint(m.size) + (Prefixed(m.smallest) + Prefixed(m.largest)))|
    ensures ParseNewFile(level,
            (Varint(m.number) + (Varint(m.size) + (Prefixed(m.smallest) + Prefixed(m.largest))))[..k]) == Failed
  {
    hide Varint, Prefixed, GetVarint64, GetPrefixed;
    var d := Prefixed(m.largest);
    var c := Prefixed(m.smallest) + d;
    var b := Varint(m.size) + c;
    CutAfterNumber(m.number, b, k);
    if k >= |Varint(m.number)| {
      var i := k - |Varint(m.number)|;
      CutAfterNumber(m.size, c, i);
      if i >= |Varint(m.size)| {
        var j := i - |Varint(m.size)|;
        CutAfterString(m.smallest, d, j);
        if j >= |Prefixed(m.smallest)| {
          BadInputs.CutStringFails(m.largest, j - |Prefixed(m.smallest)|);
        }
      }
    }
  }

  /** No field's body is read when it is cut short. */
  lemma CutBodyFails(f: Field, k: nat)
    requires Fits(f) && k < |EncodeBody(f)|
    ensures ParseBody(Tag(f), EncodeBody(f)[..k]) == Failed
  {
    hide Varint, Prefixed, GetVarint64, GetPrefixed, GetLevel, ParseNewFile;
    match f
    case Comparator(name) => BadInputs.CutStringFails(name, k);
    case CompactPointer(level, key) =>
      CutAfterLevel(level, Prefixed(key), k);
      if k >= |Varint(level)| {
        BadInputs.CutStringFails(key, k - |Varint(level)|);
      }
    case DeletedFile(level, number) =>
      CutAfterLevel(level, Varint(number), k);
      if k >= |Varint(level)| {
        CutNumber(number, k - |Varint(level)|);
      }
    case NewFile(level, m) =>
      var b := Varint(m.number) + (Varint(m.size) + (Prefixed(m.smallest) + Prefixed(m.largest)));
      assert EncodeBody(f) == Varint(level) + b;
      CutAfterLevel(level, b, k);
      if k >= |Varint(level)| {
        CutNewFileFails(level, m, k - |Varint(level)|);
      }
    case _ => CutNumber(f.n, k);
  }

  /** A record that ends within a field fails; what was read before it stays in the edit. */
  lemma CutFieldFails(e: Edit, f: Field, k: nat)
    requires Fits(f) && 0 < k < |EncodeField(f)|
    ensures Decode(e, EncodeField(f)[..k]) == (e, false)
  {
    hide Varint, EncodeBody, ParseBody, GetVarint32, Fits;
    var t := Varint(Tag(f));
    CutAt(t, EncodeBody(f), k);
    if k < |t| {
      CutNumber(Tag(f), k);
    } else {
      var body := EncodeBody(f)[..k - |t|];
      Varint32RoundTrip(Tag(f), body);
      CutBodyFails(f, k - |t|);
    }
  }

  ghost predicate Boundary(fs: seq<Field>, n: nat, k: nat) {
    n <= |fs| && |EncodeFields(fs[..n])| == k
  }

  /** A record cut at any place decodes if and only if it is cut between two fields. */
  lemma {:induction false} CutRecordIff(e: Edit, fs: seq<Field>, k: nat)
    requires AllFit(fs) && LevelsOk(fs) && k <= |EncodeFields(fs)|
    ensures Decode(e, EncodeFields(fs)[..k]).1 <==> exists n: nat :: Boundary(fs, n, k)
    decreases |fs|
  {
    hide EncodeField, Decode, AllFit, LevelsOk, Fits, LevelOk, Put;
    if k == 0 {
      NothingDecodes(e);
      assert fs[..0] == [] && Boundary(fs, 0, 0);
    } else {
      var first, rest := EncodeField(fs[0]), EncodeFields(fs[1..]);
      FirstField(fs);
      FieldsUnfold(e, fs);
      CutAt(first, rest, k);
      if k < |first| {
        CutFieldFails(e, fs[0], k);
        forall n: nat ensures !Boundary(fs, n, k) {
          if 0 < n <= |fs| { FirstOf(fs, n); }
        }
      } else {
        var i := k - |first|;
        assert EncodeFields(fs)[..k] == first + rest[..i];
        DecodeStep(e, fs[0], rest[..i]);
        CutRecordIff(Put(e, fs[0]), fs[1..], i);
        BoundaryMoves(fs, k, i);
      }
    }
  }

  lemma FirstOf(fs: seq<Field>, n: nat)
    requires 0 < n <= |fs|
    ensures EncodeFields(fs[..n]) == EncodeField(fs[0]) + EncodeFields(fs[1..][..n - 1])
  {
    hide EncodeField;
    assert fs[..n][1..] == fs[1..][..n - 1] && fs[..n][0] == fs[0];
  }

  lemma BoundaryMoves(fs: seq<Field>, k: nat, i: nat)
    requires fs != [] && k == |EncodeField(fs[0])| + i
    ensures (exists n: nat :: Boundary(fs, n, k)) <==> exists n: nat :: Boundary(fs[1..], n, i)
  {
    hide EncodeField, EncodeFields;
    if n: nat :| Boundary(fs, n, k) {
      if n == 0 {
        NoFields(fs);
        assert false;
      } else {
        FirstOf(fs, n);
        assert Boundary(fs[1..], n - 1, i);
      }
    }
    if n: nat :| Boundary(fs[1..], n, i) {
      FirstOf(fs, n + 1);
      assert Boundary(fs, n + 1, k);
    }
  }

  lemma NoFields(fs: seq<Field>)
    ensures EncodeFields(fs[..0]) == []
  {
  }
}
