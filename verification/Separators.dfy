/** Shortened separators between keys (util/comparator.cc, db/dbformat.cc): what the index blocks of
    tables are keyed by.  User keys are byte strings here.  */
module Separators {
  import opened Coding

  // ------------------------------------------------------------------ byte-string order

  /** The length of the longest common prefix. */
  function Common(a: Bytes, b: Bytes): (n: nat)
    ensures n <= |a| && n <= |b| && a[..n] == b[..n]
    ensures n < |a| && n < |b| ==> a[n] != b[n]
  {
    if a == [] || b == [] || a[0] != b[0] then 0
    else
      var n := 1 + Common(a[1..], b[1..]);
      assert a[..n] == [a[0]] + a[1..][..n - 1] && b[..n] == [b[0]] + b[1..][..n - 1];
      n
  }

  /** Slice::compare: a proper prefix comes first, otherwise the first different byte decides. */
  predicate Before(a: Bytes, b: Bytes) {
    var n := Common(a, b);
    if n < |a| && n < |b| then a[n] < b[n] else |a| < |b|
  }

  lemma CommonIs(a: Bytes, b: Bytes, n: nat)
    requires n <= |a| && n <= |b| && a[..n] == b[..n]
    requires n == |a| || n == |b| || a[n] != b[n]
    ensures Common(a, b) == n
  {
    var c := Common(a, b);
    assert forall i :: 0 <= i < n ==> a[..n][i] == b[..n][i];
    assert forall i :: 0 <= i < c ==> a[..c][i] == b[..c][i];
  }

  /** Bytewise comparison is a strict total order. */
  lemma BeforeIsTotal(a: Bytes, b: Bytes)
    ensures Before(a, b) || a == b || Before(b, a)
    ensures !(Before(a, b) && Before(b, a)) && !Before(a, a)
  {
    var n := Common(a, b);
    CommonIs(b, a, n);
    CommonIs(a, a, |a|);
    if n == |a| == |b| {
      assert a == a[..n] && b == b[..n];
    }
  }

  lemma BeforeIsTransitive(a: Bytes, b: Bytes, c: Bytes)
    requires Before(a, b) && Before(b, c)
    ensures Before(a, c)
  {
    var m, n := Common(a, b), Common(b, c);
    var k := if m < n then m else n;
    assert a[..k] == b[..k] by { assert a[..m][..k] == b[..m][..k]; }
    assert b[..k] == c[..k] by { assert b[..n][..k] == c[..n][..k]; }
    if m < n && m < |a| {
      assert b[..n][m] == c[..n][m];
    } else if n < m && n < |c| {
      assert a[..m][n] == b[..m][n];
    }
    CommonIs(a, c, k);
  }

  // ------------------------------------------------------------------ BytewiseComparator

  /** Raising one byte and cutting the rest off gives a greater string. */
  lemma RaisedIsAfter(a: Bytes, i: nat)
    requires i < |a| && a[i] < 255
    ensures Before(a, a[..i] + [a[i] + 1])
  {
    var r: Bytes := a[..i] + [a[i] + 1];
    assert a[..i] == r[..i];
    CommonIs(a, r, i);
  }

  /** Raise the first byte in which the strings differ and cut the rest off, if that stays below `limit`. */
  function ShortestSeparator(start: Bytes, limit: Bytes): (sep: Bytes)
    ensures |sep| <= |start|
  {
    var n := Common(start, limit);
    if n < |start| && n < |limit| && start[n] < 255 && start[n] + 1 < limit[n]
    then start[..n] + [start[n] + 1] else start
  }

  /** Raise the first byte that can be raised and cut the rest off. */
  function ShortSuccessor(key: Bytes): (succ: Bytes)
    ensures |succ| <= |key|
  {
    if key == [] then [] else if key[0] != 255 then [key[0] + 1] else [255] + ShortSuccessor(key[1..])
  }

  lemma {:induction false} SuccessorAt(key: Bytes, i: nat)
    requires i < |key| && key[i] != 255 && forall j :: 0 <= j < i ==> key[j] == 255
    ensures ShortSuccessor(key) == key[..i] + [key[i] + 1]
  {
    if i > 0 {
      SuccessorAt(key[1..], i - 1);
      assert key[..i] == [key[0]] + key[1..][..i - 1];
    }
  }

  lemma {:induction false} NoSuccessor(key: Bytes)
    requires forall j :: 0 <= j < |key| ==> key[j] == 255
    ensures ShortSuccessor(key) == key
  {
    if key != [] {
      NoSuccessor(key[1..]);
      assert key == [key[0]] + key[1..];
    }
  }

  lemma ShortestSeparatorLies(start: Bytes, limit: Bytes)
    ensures var sep := ShortestSeparator(start, limit);
            && (sep == start || Before(start, sep))
            && (Before(start, limit) ==> Before(sep, limit))
            && (start == limit ==> sep == start)
  {
    var n, sep := Common(start, limit), ShortestSeparator(start, limit);
    if n < |start| && n < |limit| && start[n] < 255 && start[n] + 1 < limit[n] {
      RaisedIsAfter(start, n);
      assert sep[..n] == limit[..n];
      CommonIs(sep, limit, n);
    }
  }

  /** A separator is shortened exactly when the first different byte can be raised below the limit's; and then no string
      from `start` up to the limit is shorter. */
  lemma ShortestSeparatorIsShortest(start: Bytes, limit: Bytes, t: Bytes)
    ensures var n, sep := Common(start, limit), ShortestSeparator(start, limit);
            && (sep != start <==> n < |start| && n < |limit| && start[n] < 255 && start[n] + 1 < limit[n])
            && (sep != start && (t == start || Before(start, t)) && Before(t, limit) ==> |sep| <= |t|)
  {
    var n, sep := Common(start, limit), ShortestSeparator(start, limit);
    if n < |start| && n < |limit| && start[n] < 255 && start[n] + 1 < limit[n] {
      assert sep[n] != start[n];
      if Before(start, t) && Before(t, limit) && |t| <= n { BetweenIsLonger(start, limit, t, n); }
    }
  }

  lemma BetweenIsLonger(start: Bytes, limit: Bytes, t: Bytes, n: nat)
    requires n < |start| && n < |limit| && start[..n] == limit[..n] && |t| <= n
    ensures !(Before(start, t) && Before(t, limit))
  {
    var a, b := Common(start, t), Common(t, limit);
    if a < |t| {
      assert start[..n][a] == limit[..n][a] && start[..a] == limit[..a] by {
        assert start[..n][..a] == limit[..n][..a];
      }
      CommonIs(t, limit, a);
    }
  }

  lemma {:induction false} ShortSuccessorLies(key: Bytes)
    ensures ShortSuccessor(key) == key || Before(key, ShortSuccessor(key))
    ensures ShortSuccessor(key) == key <==> forall b :: b in key ==> b == 255
  {
    if i: nat :| i < |key| && key[i] != 255 && forall j :: 0 <= j < i ==> key[j] == 255 {
      SuccessorAt(key, i);
      RaisedIsAfter(key, i);
      BeforeIsTotal(key, key);
      assert key[i] in key;
    } else {
      AllAre255(key, 0);
      NoSuccessor(key);
    }
  }

  lemma {:induction false} AllAre255(key: Bytes, i: nat)
    requires i <= |key| && forall j :: 0 <= j < i ==> key[j] == 255
    requires !exists i: nat :: i < |key| && key[i] != 255 && forall j :: 0 <= j < i ==> key[j] == 255
    ensures forall j :: 0 <= j < |key| ==> key[j] == 255
    decreases |key| - i
  {
    if i < |key| { AllAre255(key, i + 1); }
  }

  /** No longer string than the successor lies after the key, if the key can be shortened at all. */
  lemma {:induction false} ShortSuccessorIsShortest(key: Bytes, t: Bytes)
    requires Before(key, t) && exists b :: b in key && b != 255
    ensures |ShortSuccessor(key)| <= |t|
  {
    if key[0] == 255 {
      assert t != [] && t[0] == 255;
      var b :| b in key && b != 255;
      assert key == [key[0]] + key[1..] && b in key[1..];
      TailsBefore(key, t);
      ShortSuccessorIsShortest(key[1..], t[1..]);
    }
  }

  lemma TailsBefore(a: Bytes, b: Bytes)
    requires a != [] && b != [] && a[0] == b[0] && Before(a, b)
    ensures Before(a[1..], b[1..])
  {
    assert Common(a, b) == 1 + Common(a[1..], b[1..]);
  }

  method FindShortestSeparator(start: Bytes, limit: Bytes) returns (sep: Bytes)
    ensures sep == ShortestSeparator(start, limit)
    ensures sep == start || (Before(start, sep) && |sep| <= |start|)
    ensures Before(start, limit) ==> Before(sep, limit)
    ensures start == limit ==> sep == start
  {
    hide Before;
    ShortestSeparatorLies(start, limit);
    sep := start;
    var minLength := if |start| < |limit| then |start| else |limit|;
    var diff := 0;
    while diff < minLength && start[diff] == limit[diff]
      invariant diff <= minLength && start[..diff] == limit[..diff]
    {
      assert start[..diff + 1] == start[..diff] + [start[diff]];
      assert limit[..diff + 1] == limit[..diff] + [limit[diff]];
      diff := diff + 1;
    }
    CommonIs(start, limit, diff);
    if diff >= minLength {
      // A prefix has no byte that could be raised.
    } else {
      var diffByte: int := start[diff];
      if diffByte < 255 && diffByte + 1 < limit[diff] {
        sep := start[..diff] + [diffByte + 1];
      }
    }
  }

  method FindShortSuccessor(key: Bytes) returns (succ: Bytes)
    ensures succ == ShortSuccessor(key)
    ensures succ == key || (Before(key, succ) && |succ| <= |key|)
    ensures succ == key <==> forall b :: b in key ==> b == 255
  {
    ShortSuccessorLies(key);
    for i := 0 to |key|
      invariant forall j :: 0 <= j < i ==> key[j] == 255
    {
      if key[i] != 255 {
        SuccessorAt(key, i);
        return key[..i] + [key[i] + 1];
      }
    }
    // The key is a run of 255s.
    NoSuccessor(key);
    return key;
  }

  // ------------------------------------------------------------------ InternalKeyComparator

  const MAX_TRAILER: nat := 0xFF_FFFF_FFFF_FFFF * 256 + 1

  /** An internal key: a user key and its packed sequence number and type. */
  datatype Key = Key(user: Bytes, trailer: nat)

  predicate KeyBefore(a: Key, b: Key) {
    Before(a.user, b.user) || (a.user == b.user && a.trailer > b.trailer)
  }

  /** A shortened user key takes the earliest trailer, which puts it before every entry of that user key. */
  function Shortened(key: Key, user: Bytes): Key {
    if |user| < |key.user| && Before(key.user, user) then Key(user, MAX_TRAILER) else key
  }

  function Separator(start: Key, limit: Key): (sep: Key)
    ensures sep.trailer == start.trailer || sep.trailer == MAX_TRAILER
  {
    Shortened(start, ShortestSeparator(start.user, limit.user))
  }

  function Successor(key: Key): (succ: Key)
    ensures succ.trailer == key.trailer || succ.trailer == MAX_TRAILER
  {
    Shortened(key, ShortSuccessor(key.user))
  }

  /** The separator lies at or above `start` and below `limit`; a shortened one lies strictly
      between their user keys. */
  lemma SeparatorLies(start: Key, limit: Key)
    requires KeyBefore(start, limit)
    ensures var sep := Separator(start, limit);
            && KeyBefore(sep, limit)
            && (sep == start || (Before(start.user, sep.user) && Before(sep.user, limit.user) &&
               |sep.user| < |start.user|))
  {
    hide Before;
    ShortestSeparatorLies(start.user, limit.user);
    BeforeIsTotal(start.user, start.user);
  }

  lemma SuccessorLies(key: Key)
    ensures var succ := Successor(key); succ == key || (Before(key.user, succ.user) && |succ.user| < |key.user|)
  {
    hide Before;
    ShortSuccessorLies(key.user);
  }

  /** Whether the internal key is shortened, and to what: to the user key up to the first byte that can be raised, that
      byte raised, before all its entries. */
  lemma SeparatorShortensIff(start: Key, limit: Key)
    ensures var a, b, n := start.user, limit.user, Common(start.user, limit.user);
            Separator(start, limit) ==
            if n + 1 < |a| && n < |b| && a[n] < 255 && a[n] + 1 < b[n] then Key(a[..n] + [a[n] + 1], MAX_TRAILER)
            else start
  {
    var a, n := start.user, Common(start.user, limit.user);
    if n < |a| && a[n] < 255 { RaisedIsAfter(a, n); }
  }

  lemma SuccessorShortensIff(key: Key, i: nat)
    requires i < |key.user| && key.user[i] != 255 && forall j :: 0 <= j < i ==> key.user[j] == 255
    ensures Successor(key) ==
            if i + 1 < |key.user| then Key(key.user[..i] + [key.user[i] + 1], MAX_TRAILER) else key
  {
    SuccessorAt(key.user, i);
    RaisedIsAfter(key.user, i);
  }

  method SeparatorOf(start: Key, limit: Key) returns (sep: Key)
    requires KeyBefore(start, limit)
    ensures sep == Separator(start, limit) && KeyBefore(sep, limit)
    ensures sep == start || (Before(start.user, sep.user) && Before(sep.user, limit.user) && |sep.user| < |start.user|)
  {
    hide ShortestSeparator;
    SeparatorLies(start, limit);
    var tmp := FindShortestSeparator(start.user, limit.user);
    if |tmp| < |start.user| && Before(start.user, tmp) {
      // Shorter and greater: the earliest trailer puts it before every entry of that user key.
      sep := Key(tmp, MAX_TRAILER);
    } else {
      sep := start;
    }
  }

  method SuccessorOf(key: Key) returns (succ: Key)
    ensures succ == Successor(key)
    ensures succ == key || (Before(key.user, succ.user) && |succ.user| < |key.user|)
  {
    hide ShortSuccessor;
    SuccessorLies(key);
    var tmp := FindShortSuccessor(key.user);
    if |tmp| < |key.user| && Before(key.user, tmp) {
      succ := Key(tmp, MAX_TRAILER);
    } else {
      succ := key;
    }
  }
}
