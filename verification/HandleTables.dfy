/** The hash table of the block cache (util/cache.cc): chained buckets, a power of two of them,
    against a finite map.  */
module HandleTables {
  import opened Keys

  /** A chained entry: the key and hash of a handle, and the handle itself. */
  datatype Slot = Slot(key: int, hash: nat, handle: nat)

  type Name = (int, nat)

  function NameOf(s: Slot): Name {
    (s.key, s.hash)
  }

  /** No two slots of a bucket have the same key and hash. */
  ghost predicate Distinct(bucket: seq<Slot>) {
    forall i, j :: 0 <= i < j < |bucket| ==> NameOf(bucket[i]) != NameOf(bucket[j])
  }

  /** The bucket holds exactly the entries of `m` whose hash falls into it. */
  ghost predicate BucketHolds(bucket: seq<Slot>, b: nat, length: nat, m: map<Name, nat>)
    requires length > 0
  {
    && Distinct(bucket)
    && (forall s :: s in bucket ==> s.hash % length == b && NameOf(s) in m && m[NameOf(s)] == s.handle)
    && (forall n :: n in m && n.1 % length == b ==> Slot(n.0, n.1, m[n]) in bucket)
  }

  ghost predicate Holds(list: seq<seq<Slot>>, m: map<Name, nat>) {
    |list| > 0 && forall b :: 0 <= b < |list| ==> BucketHolds(list[b], b, |list|, m)
  }

  ghost predicate PowerOfTwo(n: nat) {
    n == 1 || (n > 0 && n % 2 == 0 && PowerOfTwo(n / 2))
  }

  // ------------------------------------------------------------------ changing one bucket

  lemma OtherBucket(bucket: seq<Slot>, b: nat, length: nat, m: map<Name, nat>, m': map<Name, nat>)
    requires length > 0 && BucketHolds(bucket, b, length, m)
    requires forall n: Name :: n.1 % length == b ==> (n in m <==> n in m') && (n in m ==> m[n] == m'[n])
    ensures BucketHolds(bucket, b, length, m')
  {
    forall s | s in bucket ensures NameOf(s) in m' && m'[NameOf(s)] == s.handle {
      assert NameOf(s).1 % length == b;
    }
  }

  lemma BucketPut(list: seq<seq<Slot>>, m: map<Name, nat>, bucket: seq<Slot>, s: Slot)
    requires Holds(list, m)
    requires var b := s.hash % |list|;
             BucketHolds(bucket, b, |list|, m[NameOf(s) := s.handle])
    ensures Holds(list[s.hash % |list| := bucket], m[NameOf(s) := s.handle])
  {
    hide BucketHolds;
    var b, m' := s.hash % |list|, m[NameOf(s) := s.handle];
    var list' := list[b := bucket];
    forall c | 0 <= c < |list| ensures BucketHolds(list'[c], c, |list|, m') {
      if c != b { OtherBucket(list[c], c, |list|, m, m'); }
    }
  }

  lemma AddedToBucket(bucket: seq<Slot>, bucket': seq<Slot>, b: nat, length: nat, m: map<Name, nat>, s: Slot)
    requires length > 0 && BucketHolds(bucket, b, length, m) && s.hash % length == b && NameOf(s) !in m
    requires bucket' == [s] + bucket || bucket' == bucket + [s]
    ensures BucketHolds(bucket', b, length, m[NameOf(s) := s.handle])
  {
    assert forall t :: t in bucket' <==> t == s || t in bucket;
    assert forall i :: 0 <= i < |bucket| ==> bucket[i] in bucket;
  }

  lemma ReplacedInBucket(bucket: seq<Slot>, i: nat, b: nat, length: nat, m: map<Name, nat>, s: Slot)
    requires length > 0 && BucketHolds(bucket, b, length, m) && s.hash % length == b
    requires i < |bucket| && NameOf(bucket[i]) == NameOf(s)
    ensures BucketHolds(bucket[i := s], b, length, m[NameOf(s) := s.handle])
  {
    var bucket', m' := bucket[i := s], m[NameOf(s) := s.handle];
    forall t | t in bucket' ensures t.hash % length == b && NameOf(t) in m' && m'[NameOf(t)] == t.handle {
      var j :| 0 <= j < |bucket'| && bucket'[j] == t;
      assert bucket[j] in bucket;
    }
    forall n | n in m' && n.1 % length == b ensures Slot(n.0, n.1, m'[n]) in bucket' {
      if n == NameOf(s) {
        assert bucket'[i] == s;
      } else {
        var j :| 0 <= j < |bucket| && bucket[j] == Slot(n.0, n.1, m[n]);
        assert bucket'[j] == bucket[j];
      }
    }
  }

  lemma RemovedSlot(bucket: seq<Slot>, i: nat)
    requires Distinct(bucket) && i < |bucket|
    ensures var bucket' := bucket[..i] + bucket[i + 1..];
            Distinct(bucket') && forall t :: t in bucket' <==> t in bucket && NameOf(t) != NameOf(bucket[i])
  {
    var bucket' := bucket[..i] + bucket[i + 1..];
    assert forall j :: 0 <= j < |bucket'| ==> bucket'[j] == bucket[if j < i then j else j + 1];
    forall t ensures t in bucket' <==> t in bucket && NameOf(t) != NameOf(bucket[i]) {
      if t in bucket && NameOf(t) != NameOf(bucket[i]) {
        var j :| 0 <= j < |bucket| && bucket[j] == t;
        assert bucket'[if j < i then j else j - 1] == t;
      }
    }
  }

  lemma RemovedFromBucket(bucket: seq<Slot>, i: nat, b: nat, length: nat, m: map<Name, nat>)
    requires length > 0 && BucketHolds(bucket, b, length, m) && i < |bucket|
    ensures BucketHolds(bucket[..i] + bucket[i + 1..], b, length, m - {NameOf(bucket[i])})
  {
    hide Distinct;
    RemovedSlot(bucket, i);
  }

  // ------------------------------------------------------------------ HandleTable

  class HandleTable {
    var list: seq<seq<Slot>>
    var elems: nat
    ghost var contents: map<Name, nat>

    ghost predicate Valid()
      reads this
    {
      && Holds(list, contents) && elems == |contents| <= |list| && PowerOfTwo(|list|) && |list| >= 4
    }

    constructor ()
      ensures Valid() && contents == map[]
    {
      list, elems, contents := [[], [], [], []], 0, map[];
      new;
      assert PowerOfTwo(1) && PowerOfTwo(2) && PowerOfTwo(4);
      assert forall b :: 0 <= b < 4 ==> list[b] == [];
    }

    /** The bucket of the hash, and the place in it of the entry with this key and hash, or its end. */
    method FindPointer(key: int, hash: nat) returns (b: nat, i: nat)
      requires Valid()
      ensures b == hash % |list| && i <= |list[b]|
      ensures if (key, hash) in contents
              then i < |list[b]| && list[b][i] == Slot(key, hash, contents[(key, hash)]) else i == |list[b]|
    {
      b, i := hash % |list|, 0;
      ghost var bucket := list[b];
      assert BucketHolds(bucket, b, |list|, contents);
      while i < |list[b]| && (list[b][i].hash != hash || list[b][i].key != key)
        invariant i <= |list[b]|
        invariant forall j :: 0 <= j < i ==> NameOf(list[b][j]) != (key, hash)
      {
        i := i + 1;
      }
      if i < |list[b]| {
        assert bucket[i] in bucket && NameOf(bucket[i]) == (key, hash);
      }
    }

    method Lookup(key: int, hash: nat) returns (handle: Option<nat>)
      requires Valid()
      ensures handle == if (key, hash) in contents then Some(contents[(key, hash)]) else None
    {
      var b, i := FindPointer(key, hash);
      handle := if i < |list[b]| then Some(list[b][i].handle) else None;
    }

    method Insert(s: Slot) returns (old_: Option<nat>)
      requires Valid()
      modifies this
      ensures Valid() && contents == old(contents)[NameOf(s) := s.handle]
      ensures old_ == if NameOf(s) in old(contents) then Some(old(contents)[NameOf(s)]) else None
      ensures if |contents| <= |old(list)| then |list| == |old(list)| else |contents| <= |list| < 2 * |contents|
    {
      hide PowerOfTwo, Distinct;
      var b, i := FindPointer(s.key, s.hash);
      assert BucketHolds(list[b], b, |list|, contents);
      if i < |list[b]| {
        old_ := Some(list[b][i].handle);
        ReplacedInBucket(list[b], i, b, |list|, contents, s);
        BucketPut(list, contents, list[b][i := s], s);
        list := list[b := list[b][i := s]];
        contents := contents[NameOf(s) := s.handle];
        assert contents.Keys == old(contents).Keys;
      } else {
        old_ := None;
        AddedToBucket(list[b], list[b] + [s], b, |list|, contents, s);
        BucketPut(list, contents, list[b] + [s], s);
        list := list[b := list[b] + [s]];
        contents := contents[NameOf(s) := s.handle];
        assert contents.Keys == old(contents).Keys + {NameOf(s)};
        elems := elems + 1;
        if elems > |list| {
          Resize();
        }
      }
    }

    method Remove(key: int, hash: nat) returns (handle: Option<nat>)
      requires Valid()
      modifies this
      ensures Valid() && contents == old(contents) - {(key, hash)}
      ensures handle == if (key, hash) in old(contents) then Some(old(contents)[(key, hash)]) else None
      ensures |list| == |old(list)|
    {
      hide PowerOfTwo, Distinct;
      var b, i := FindPointer(key, hash);
      if i < |list[b]| {
        handle := Some(list[b][i].handle);
        RemovedHolds(list, contents, b, i);
        list := list[b := list[b][..i] + list[b][i + 1..]];
        contents := contents - {(key, hash)};
        assert contents.Keys == old(contents).Keys - {(key, hash)};
        elems := elems - 1;
      } else {
        handle := None;
        assert contents - {(key, hash)} == contents;
      }
    }

    /** Rehash into the least power of two of buckets, from four, that is not below the number of
        entries. */
    method Resize()
      requires Holds(list, contents) && elems == |contents|
      modifies this`list
      ensures Valid() && (|list| == 4 || |list| < 2 * elems)
    {
      hide BucketHolds;
      var newLength := 4;
      assert PowerOfTwo(1) && PowerOfTwo(2);
      while newLength < elems
        invariant newLength >= 4 && PowerOfTwo(newLength) && (newLength == 4 || newLength < 2 * elems)
      {
        assert newLength * 2 / 2 == newLength;
        newLength := newLength * 2;
      }
      var newList: seq<seq<Slot>> := seq(newLength, _ => []);
      ghost var moved: map<Name, nat> := map[];
      var count := 0;
      EmptyHolds(newList);
      for i := 0 to |list|
        invariant list == old(list)
        invariant |newList| == newLength && Holds(newList, moved) && count == |moved|
        invariant Rehashed(|list|, i, contents, moved)
      {
        newList, moved, count := MoveBucket(i, newList, moved, count);
      }
      assert moved == contents;
      list := newList;
    }

    /** Push every slot of bucket `i` onto the front of its new bucket. */
    method MoveBucket(i: nat, newList: seq<seq<Slot>>, ghost moved: map<Name, nat>, count: nat)
      returns (newList': seq<seq<Slot>>, ghost moved': map<Name, nat>, count': nat)
      requires Holds(list, contents) && i < |list| && |newList| > 0 && Holds(newList, moved) && count == |moved|
      requires Rehashed(|list|, i, contents, moved)
      ensures |newList'| == |newList| && Holds(newList', moved') && count' == |moved'|
      ensures Rehashed(|list|, i + 1, contents, moved')
    {
      hide BucketHolds, Holds, Moved, Rehashed;
      var bucket := list[i];
      TheBucket(list, contents, i);
      newList', moved', count' := newList, moved, count;
      NothingMoved(bucket, |list|, i, contents, moved);
      for j := 0 to |bucket|
        invariant |newList'| == |newList| > 0 && Holds(newList', moved') && count' == |moved'|
        invariant Moved(bucket, j, contents, moved, moved')
      {
        var h := bucket[j];
        MoveOne(bucket, j, i, |list|, contents, moved, moved');
        PushFront(newList', moved', h);
        var b := h.hash % |newList'|;
        newList' := newList'[b := [h] + newList'[b]];
        moved', count' := moved'[NameOf(h) := h.handle], count' + 1;
      }
      BucketDone(bucket, i, |list|, contents, moved, moved');
    }
  }

  lemma TheBucket(list: seq<seq<Slot>>, m: map<Name, nat>, b: nat)
    requires Holds(list, m) && b < |list|
    ensures BucketHolds(list[b], b, |list|, m)
  {
  }

  /** The entries of `moved` and of the first `j` slots of the bucket have been moved. */
  ghost predicate Moved(bucket: seq<Slot>, j: nat, m: map<Name, nat>, moved: map<Name, nat>, moved': map<Name, nat>)
    requires j <= |bucket|
  {
    && (forall n :: n in moved' <==> n in moved || exists k :: 0 <= k < j && NameOf(bucket[k]) == n)
    && (forall n :: n in moved' ==> n in m && moved'[n] == m[n])
  }

  /** The entries of `moved` are those of the first `i` of `length` buckets. */
  ghost predicate Rehashed(length: nat, i: nat, m: map<Name, nat>, moved: map<Name, nat>) {
    && length > 0
    && (forall n :: n in moved <==> n in m && n.1 % length < i)
    && (forall n :: n in moved ==> moved[n] == m[n])
  }

  lemma NothingMoved(bucket: seq<Slot>, length: nat, i: nat, m: map<Name, nat>, moved: map<Name, nat>)
    requires Rehashed(length, i, m, moved)
    ensures Moved(bucket, 0, m, moved, moved)
  {
  }

  lemma MapGrows(m: map<Name, nat>, n: Name, handle: nat)
    requires n !in m
    ensures |m[n := handle]| == |m| + 1
  {
    assert m[n := handle].Keys == m.Keys + {n};
  }

  lemma NotYetMoved(bucket: seq<Slot>, j: nat, b: nat, length: nat, m: map<Name, nat>, moved: map<Name, nat>,
                    moved': map<Name, nat>)
    requires length > 0 && BucketHolds(bucket, b, length, m) && j < |bucket| && Moved(bucket, j, m, moved, moved')
    requires Rehashed(length, b, m, moved)
    ensures NameOf(bucket[j]) !in moved' && NameOf(bucket[j]) in m && m[NameOf(bucket[j])] == bucket[j].handle
  {
    assert bucket[j] in bucket;
  }

  lemma MoveOne(bucket: seq<Slot>, j: nat, b: nat, length: nat, m: map<Name, nat>, moved: map<Name, nat>,
                moved': map<Name, nat>)
    requires length > 0 && BucketHolds(bucket, b, length, m) && j < |bucket| && Moved(bucket, j, m, moved, moved')
    requires Rehashed(length, b, m, moved)
    ensures NameOf(bucket[j]) !in moved'
    ensures var next := moved'[NameOf(bucket[j]) := bucket[j].handle];
            Moved(bucket, j + 1, m, moved, next) && |next| == |moved'| + 1
  {
    hide BucketHolds, Rehashed;
    NotYetMoved(bucket, j, b, length, m, moved, moved');
    var h := bucket[j];
    var next := moved'[NameOf(h) := h.handle];
    MapGrows(moved', NameOf(h), h.handle);
    forall n ensures n in next <==> n in moved || exists k :: 0 <= k < j + 1 && NameOf(bucket[k]) == n {
      if n in moved' && n !in moved {
        var k :| 0 <= k < j && NameOf(bucket[k]) == n;
      }
      if exists k :: 0 <= k < j + 1 && NameOf(bucket[k]) == n {
        var k :| 0 <= k < j + 1 && NameOf(bucket[k]) == n;
        assert k == j || n in moved';
      }
    }
  }

  lemma RemovedHolds(list: seq<seq<Slot>>, m: map<Name, nat>, b: nat, i: nat)
    requires Holds(list, m) && b < |list| && i < |list[b]|
    ensures Holds(list[b := list[b][..i] + list[b][i + 1..]], m - {NameOf(list[b][i])})
  {
    hide Distinct;
    var s := list[b][i];
    var m', bucket := m - {NameOf(s)}, list[b][..i] + list[b][i + 1..];
    assert BucketHolds(list[b], b, |list|, m) && s in list[b];
    RemovedFromBucket(list[b], i, b, |list|, m);
    hide BucketHolds;
    var list' := list[b := bucket];
    forall c | 0 <= c < |list| ensures BucketHolds(list'[c], c, |list|, m') {
      if c != b { OtherBucket(list[c], c, |list|, m, m'); }
    }
  }

  lemma EmptyHolds(list: seq<seq<Slot>>)
    requires |list| > 0 && forall b :: 0 <= b < |list| ==> list[b] == []
    ensures Holds(list, map[])
  {
  }

  lemma PushFront(list: seq<seq<Slot>>, m: map<Name, nat>, s: Slot)
    requires Holds(list, m) && NameOf(s) !in m
    ensures var b := s.hash % |list|; Holds(list[b := [s] + list[b]], m[NameOf(s) := s.handle])
  {
    hide BucketHolds;
    var b := s.hash % |list|;
    AddedToBucket(list[b], [s] + list[b], b, |list|, m, s);
    BucketPut(list, m, [s] + list[b], s);
  }

  lemma BucketDone(bucket: seq<Slot>, b: nat, length: nat, m: map<Name, nat>, moved: map<Name, nat>,
                   moved': map<Name, nat>)
    requires length > 0 && BucketHolds(bucket, b, length, m) && Rehashed(length, b, m, moved)
    requires Moved(bucket, |bucket|, m, moved, moved')
    ensures Rehashed(length, b + 1, m, moved')
  {
    forall n: Name ensures n in moved' <==> n in m && n.1 % length < b + 1 {
      if n in m && n.1 % length == b {
        assert Slot(n.0, n.1, m[n]) in bucket;
        var k :| 0 <= k < |bucket| && bucket[k] == Slot(n.0, n.1, m[n]);
        assert NameOf(bucket[k]) == n;
      }
      if n in moved' && n !in moved {
        var k :| 0 <= k < |bucket| && NameOf(bucket[k]) == n;
        assert bucket[k] in bucket;
      }
    }
  }
}
