/** What a client iterator ranges over: the keys live at a sequence number, in key order. */
module UserView {
  import opened Keys

  predicate Visible(m: Run, s: nat, i: nat)
    requires i < |m|
  {
    m[i].ik.seqno <= s
  }

  /** Entry `i` is the newest visible entry for its user key, and it is a value. */
  predicate Live(m: Run, s: nat, i: nat)
    requires i < |m|
  {
    && Visible(m, s, i) && m[i].ik.typ.Value?
    && forall j :: 0 <= j < i && m[j].ik.user == m[i].ik.user ==> !Visible(m, s, j)
  }

  /** The live pairs among the first `n` entries. */
  function ViewUpTo(m: Run, s: nat, n: nat): seq<(UserKey, string)>
    requires n <= |m|
  {
    if n == 0 then []
    else ViewUpTo(m, s, n - 1) + if Live(m, s, n - 1) then [(m[n - 1].ik.user, m[n - 1].value)] else []
  }

  function View(m: Run, s: nat): seq<(UserKey, string)> {
    ViewUpTo(m, s, |m|)
  }

  // ------------------------------------------------------------------ the view is the map of live keys

  lemma {:induction false} ViewHolds(m: Run, s: nat, n: nat, p: (UserKey, string))
    requires n <= |m|
    ensures p in ViewUpTo(m, s, n) <==> exists i :: 0 <= i < n && Live(m, s, i) && p == (m[i].ik.user, m[i].value)
  {
    if n > 0 {
      ViewHolds(m, s, n - 1, p);
    }
  }

  /** The view lists the keys in strictly ascending order. */
  lemma {:induction false} ViewAscends(m: Run, s: nat, n: nat)
    requires Sorted(m) && n <= |m|
    ensures var v := ViewUpTo(m, s, n);
            && (forall i, j :: 0 <= i < j < |v| ==> v[i].0 < v[j].0)
            && (forall p :: p in v ==> n > 0 && p.0 <= m[n - 1].ik.user)
  {
    if n > 0 {
      ViewAscends(m, s, n - 1);
      var v := ViewUpTo(m, s, n - 1);
      if n > 1 { assert Less(m[n - 2].ik, m[n - 1].ik); }
      if Live(m, s, n - 1) {
        forall i | 0 <= i < |v| ensures v[i].0 < m[n - 1].ik.user {
          assert v[i] in v;
          ViewHolds(m, s, n - 1, v[i]);
        }
      }
    }
  }

  /** A key is in the view exactly when a read of it at the sequence number finds its value. */
  lemma ViewIsReads(m: Run, s: nat, user: UserKey, value: string)
    requires Sorted(m)
    ensures (user, value) in View(m, s) <==> Answer(RunGet(m, user, s)) == Some(value)
  {
    ViewHolds(m, s, |m|, (user, value));
    var n := LowerBound(m, LookupKey(user, s));
    forall j | 0 <= j < n && m[j].ik.user == user ensures !Visible(m, s, j) {}
    if n < |m| && m[n].ik.user == user {
      assert Visible(m, s, n);
      assert m[n].ik.typ.Value? ==> Live(m, s, n);
      forall i | 0 <= i < |m| && Live(m, s, i) && m[i].ik.user == user ensures i == n {}
    } else {
      forall i | 0 <= i < |m| && m[i].ik.user == user ensures !Visible(m, s, i) {
        assert n < i ==> Less(m[n].ik, m[i].ik);
      }
    }
  }

  // ------------------------------------------------------------------ moving over live entries

  /** The first live entry at or after `i`, or the end. */
  function NextLive(m: Run, s: nat, i: nat): (n: nat)
    requires i <= |m|
    ensures i <= n <= |m| && (n < |m| ==> Live(m, s, n))
    ensures forall j :: i <= j < n ==> !Live(m, s, j)
    decreases |m| - i
  {
    if i == |m| || Live(m, s, i) then i else NextLive(m, s, i + 1)
  }

  /** The last live entry before `i`, if any. */
  function PrevLive(m: Run, s: nat, i: nat): (n: Option<nat>)
    requires i <= |m|
    ensures n.Some? ==> n.value < i && Live(m, s, n.value)
    ensures forall j :: (if n.Some? then n.value + 1 else 0) <= j < i ==> !Live(m, s, j)
  {
    if i == 0 then None else if Live(m, s, i - 1) then Some(i - 1) else PrevLive(m, s, i - 1)
  }

  /** The number of live entries before `i`: the cursor of a live entry in the view. */
  function Rank(m: Run, s: nat, i: nat): nat
    requires i <= |m|
  {
    |ViewUpTo(m, s, i)|
  }

  lemma {:induction false} RankSkips(m: Run, s: nat, i: nat, j: nat)
    requires i <= j <= |m| && forall k :: i <= k < j ==> !Live(m, s, k)
    ensures ViewUpTo(m, s, i) == ViewUpTo(m, s, j)
  {
    if i < j {
      RankSkips(m, s, i, j - 1);
    }
  }

  lemma {:induction false} ViewPrefix(m: Run, s: nat, i: nat, j: nat)
    requires i <= j <= |m|
    ensures ViewUpTo(m, s, i) <= ViewUpTo(m, s, j)
  {
    if i < j {
      ViewPrefix(m, s, i, j - 1);
    }
  }

  lemma RankOfLive(m: Run, s: nat, i: nat)
    requires i < |m| && Live(m, s, i)
    ensures Rank(m, s, i) < |View(m, s)| && View(m, s)[Rank(m, s, i)] == (m[i].ik.user, m[i].value)
    ensures Rank(m, s, i + 1) == Rank(m, s, i) + 1
  {
    ViewPrefix(m, s, i + 1, |m|);
  }

  // ------------------------------------------------------------------ the reference cursor

  datatype Move = First | Last | Next | Prev | Seek(target: UserKey)

  function FirstAtOrAfter(v: seq<(UserKey, string)>, target: UserKey): (n: nat)
    ensures n <= |v|
    ensures forall i :: 0 <= i < n ==> v[i].0 < target
    ensures n < |v| ==> v[n].0 >= target
  {
    if v == [] || v[0].0 >= target then 0 else 1 + FirstAtOrAfter(v[1..], target)
  }

  function AtIndex(v: seq<(UserKey, string)>, i: int): Option<nat> {
    if 0 <= i < |v| then Some(i) else None
  }

  /** How a cursor over a sorted list moves; Next and Prev are for a valid cursor only. */
  function MoveCursor(v: seq<(UserKey, string)>, c: Option<nat>, move: Move): Option<nat>
    requires move.Next? || move.Prev? ==> c.Some?
  {
    match move
    case First => AtIndex(v, 0)
    case Last => AtIndex(v, |v| - 1)
    case Next => AtIndex(v, c.value + 1)
    case Prev => AtIndex(v, c.value - 1)
    case Seek(target) => AtIndex(v, FirstAtOrAfter(v, target))
  }

  lemma NextLiveMoves(m: Run, s: nat, i: nat)
    requires i <= |m|
    ensures var n := NextLive(m, s, i);
            AtIndex(View(m, s), Rank(m, s, i)) == if n < |m| then Some(Rank(m, s, n)) else None
  {
    var n := NextLive(m, s, i);
    RankSkips(m, s, i, n);
    if n < |m| {
      RankOfLive(m, s, n);
    }
  }

  lemma PrevLiveMoves(m: Run, s: nat, i: nat)
    requires i <= |m|
    ensures var n := PrevLive(m, s, i);
            AtIndex(View(m, s), Rank(m, s, i) - 1) == if n.Some? then Some(Rank(m, s, n.value)) else None
  {
    var n := PrevLive(m, s, i);
    if n.Some? {
      RankSkips(m, s, n.value + 1, i);
      RankOfLive(m, s, n.value);
    } else {
      RankSkips(m, s, 0, i);
    }
  }

  lemma SeekLiveMoves(m: Run, s: nat, target: UserKey)
    requires Sorted(m)
    ensures var i := LowerBound(m, LookupKey(target, s));
            FirstAtOrAfter(View(m, s), target) == Rank(m, s, i)
  {
    var v, i := View(m, s), LowerBound(m, LookupKey(target, s));
    var before := ViewUpTo(m, s, i);
    ViewPrefix(m, s, i, |m|);
    forall k | 0 <= k < |before| ensures v[k].0 < target {
      assert before[k] in before;
      ViewHolds(m, s, i, before[k]);
    }
    var n := NextLive(m, s, i);
    RankSkips(m, s, i, n);
    if n < |m| {
      RankOfLive(m, s, n);
      assert n == i || Less(m[i].ik, m[n].ik);
    }
  }
}
