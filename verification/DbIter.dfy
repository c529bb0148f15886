/** DBIter (db/db_iter.cc): the client iterator over an internal iterator. */
module DbIter {
  import opened Keys
  import opened UserView
  import opened Iterators

  /** `n` entries from the start have been passed going backwards: all visible entries between
      them and entry `at` have the user key of `at`. */
  ghost predicate JustBefore(m: Run, s: nat, n: nat, at: nat)
    requires n <= at < |m|
  {
    && (n > 0 ==> m[n - 1].ik.user < m[at].ik.user)
    && forall i :: n <= i < at ==> m[i].ik.user == m[at].ik.user || !Visible(m, s, i)
  }

  /** Entry `i` is one a forward scan may stop at. */
  ghost predicate Acceptable(m: Run, s: nat, i: nat, skipTo: Option<UserKey>)
    requires i < |m|
  {
    Live(m, s, i) && (skipTo.Some? ==> m[i].ik.user > skipTo.value)
  }

  /** A forward scan from `start` misses nothing: visible entries it starts after can only hide
      entries it skips anyway, and it meets no visible entry below the key it skips. */
  ghost predicate ScanReady(m: Run, s: nat, start: nat, skipTo: Option<UserKey>) {
    && (forall j, i :: 0 <= j < start <= i < |m| && m[j].ik.user == m[i].ik.user && Visible(m, s, j) ==>
          skipTo.Some? && m[i].ik.user <= skipTo.value)
    && (forall i :: start <= i < |m| && Visible(m, s, i) && skipTo.Some? ==> skipTo.value <= m[i].ik.user)
  }

  class DBIter {
    const iter: InternalIterator
    const sequence: nat
    var direction: Direction
    var valid: bool
    var savedKey: Option<UserKey>
    var savedValue: string
    ghost var at: nat

    /** How many entries lie before the point the internal iterator has reached going backwards. */
    ghost function Passed(): nat
      reads this, iter
    {
      if iter.Valid() then iter.pos + 1 else 0
    }

    ghost predicate Valid()
      reads this, iter
    {
      && Sorted(iter.run) && iter.pos <= |iter.run|
      && (valid ==>
            && at < |iter.run| && Live(iter.run, sequence, at)
            && (direction.Forward? ==> iter.pos == at)
            && (direction.Reverse? ==>
                  && savedKey == Some(iter.run[at].ik.user) && savedValue == iter.run[at].value
                  && Passed() <= at && JustBefore(iter.run, sequence, Passed(), at)))
    }

    ghost function Contents(): seq<(UserKey, string)> {
      View(iter.run, sequence)
    }

    ghost function Cursor(): Option<nat>
      requires Valid()
      reads this, iter
    {
      if valid then Some(Rank(iter.run, sequence, at)) else None
    }

    constructor (run: Run, sequence: nat)
      requires Sorted(run)
      ensures Valid() && fresh(iter) && Cursor() == None && Contents() == View(run, sequence)
    {
      iter := new InternalIterator(run);
      this.sequence := sequence;
      direction, valid, savedKey, savedValue, at := Forward, false, None, "", 0;
    }

    function Key(): UserKey
      requires Valid() && valid
      reads this, iter
    {
      if direction.Forward? then iter.Key().user else savedKey.value
    }

    function Value(): string
      requires Valid() && valid
      reads this, iter
    {
      if direction.Forward? then iter.run[iter.pos].value else savedValue
    }

    lemma KeyIsCurrent()
      requires Valid() && valid
      ensures Cursor().value < |Contents()| && Contents()[Cursor().value] == (Key(), Value())
    {
      RankOfLive(iter.run, sequence, at);
    }

    // ---------------------------------------------------------------- going forward

    method FindNextUserEntry(skipTo: Option<UserKey>)
      requires iter.Valid() && Sorted(iter.run) && direction.Forward?
      requires ScanReady(iter.run, sequence, iter.pos, skipTo)
      modifies this`valid, this`savedKey, this`at, iter
      ensures valid ==> iter.Valid() && at == iter.pos && Acceptable(iter.run, sequence, at, skipTo)
      ensures old(iter.pos) <= iter.pos <= |iter.run|
      ensures forall i :: old(iter.pos) <= i < iter.pos ==> !Acceptable(iter.run, sequence, i, skipTo)
      ensures !valid ==> iter.pos == |iter.run|
    {
      ghost var start := iter.pos;
      var m := iter.run;
      var skip := skipTo;
      while iter.Valid()
        invariant start <= iter.pos <= |m|
        invariant forall i :: start <= i < iter.pos ==> !Acceptable(m, sequence, i, skipTo)
        invariant skip == skipTo ||
                  (skip.Some? && exists j ::
                  start <= j < iter.pos && Visible(m, sequence, j) && m[j].ik.user == skip.value)
        invariant skipTo.Some? ==> skip.Some? && skipTo.value <= skip.value
        invariant forall j :: start <= j < iter.pos && Visible(m, sequence, j) ==>
                  skip.Some? && m[j].ik.user <= skip.value
        decreases |m| - iter.pos
      {
        var e := m[iter.pos];
        if e.ik.seqno <= sequence {
          if e.ik.typ.Deletion? {
            // All upcoming entries for this key are hidden by this deletion.
            skip := Some(e.ik.user);
          } else if skip.Some? && e.ik.user <= skip.value {
            // Hidden.
          } else {
            valid, at, savedKey := true, iter.pos, None;
            return;
          }
        }
        iter.Next();
      }
      savedKey, valid := None, false;
    }

    // ---------------------------------------------------------------- going backward

    method FindPrevUserEntry()
      requires Sorted(iter.run) && iter.pos <= |iter.run| && direction.Reverse?
      modifies this`valid, this`direction, this`savedKey, this`savedValue, this`at, iter
      ensures Valid()
      ensures valid <==> PrevLive(iter.run, sequence, old(Passed())).Some?
      ensures valid ==> direction.Reverse? && at == PrevLive(iter.run, sequence, old(Passed())).value
    {
      hide PrevLive, Scanned, Sorted, Live;
      ghost var start := Passed();
      ghost var q: nat := 0;
      var m := iter.run;
      var valueType := Deletion;
      NothingScanned(m, sequence, start, savedKey, savedValue);
      while iter.Valid()
        invariant iter.pos <= |m| && Passed() <= start && direction.Reverse?
        invariant Scanned(m, sequence, Passed(), start, valueType, q, savedKey, savedValue)
        decreases Passed()
      {
        var e := m[iter.pos];
        ScanEntry(m, sequence, Passed(), start, valueType, q, savedKey, savedValue);
        if e.ik.seqno <= sequence {
          if valueType.Value? && e.ik.user < savedKey.value {
            // A value for the current key has been found, and this entry is for an earlier key.
            break;
          }
          valueType := e.ik.typ;
          if valueType.Deletion? {
            savedKey, savedValue := None, "";
          } else {
            savedKey, savedValue, q := Some(e.ik.user), e.value, iter.pos;
          }
        }
        iter.Prev();
      }
      ScanEnds(m, sequence, Passed(), start, valueType, q, savedKey, savedValue);
      if valueType.Deletion? {
        NoLiveBefore(m, sequence, start);
        valid, savedKey, savedValue, direction := false, None, "", Forward;
      } else {
        LastValueIsLive(m, sequence, Passed(), q, start);
        valid, at := true, q;
      }
    }

    // ---------------------------------------------------------------- the iterator's operations

    /** Get ready to skip past the current key: save it, and when the direction changes advance
        into the range of its entries. */
    method TurnForward()
      requires Valid() && valid
      modifies this`direction, this`savedKey, iter
      ensures iter.Valid() && iter.pos <= at && direction.Forward? && savedKey == Some(iter.run[at].ik.user)
      ensures iter.pos == at || JustBefore(iter.run, sequence, iter.pos, at)
    {
      if direction.Reverse? {
        direction := Forward;
        // The internal iterator is just before the entries for the current key.
        if !iter.Valid() {
          iter.SeekToFirst();
        } else {
          iter.Next();
        }
        if !iter.Valid() {
          // The source gives up here; the entries for the current key still lie ahead.
          assert false;
        }
      } else {
        savedKey := Some(iter.Key().user);
      }
    }

    method Next()
      requires Valid() && valid
      modifies this`direction, this`valid, this`savedKey, this`at, iter
      ensures Valid() && Cursor() == MoveCursor(Contents(), old(Cursor()), Move.Next)
    {
      hide Sorted, Live, Rank, View, ScanReady, Acceptable, JustBefore;
      ghost var m, from := iter.run, at;
      RankOfLive(m, sequence, from);
      NextLiveMoves(m, sequence, from + 1);
      TurnForward();
      ghost var start := iter.pos;
      NextIsReady(m, sequence, start, from);
      FindNextUserEntry(savedKey);
      FirstAcceptableIsNext(m, sequence, start, from, iter.pos);
    }

    method Prev()
      requires Valid() && valid
      modifies this`direction, this`valid, this`savedKey, this`savedValue, this`at, iter
      ensures Valid() && Cursor() == MoveCursor(Contents(), old(Cursor()), Move.Prev)
    {
      hide Sorted, Live, Rank, View;
      ghost var m, from := iter.run, at;
      PrevLiveMoves(m, sequence, from);
      if direction.Forward? {
        BackOverKey();
        if !iter.Valid() {
          valid, savedKey, savedValue := false, None, "";
          SameKeyIsNotLive(m, sequence, 0, from);
          return;
        }
        direction := Reverse;
      }
      SameKeyIsNotLive(m, sequence, Passed(), from);
      FindPrevUserEntry();
    }

    /** Step back over all entries of this user key. */
    method BackOverKey()
      requires Sorted(iter.run) && iter.pos == at < |iter.run|
      modifies this`savedKey, iter
      ensures iter.pos <= |iter.run| && Passed() <= at
      ensures forall i :: Passed() <= i <= at ==> iter.run[i].ik.user == iter.run[at].ik.user
    {
      ghost var m := iter.run;
      savedKey := Some(iter.Key().user);
      while true
        invariant iter.pos <= at && iter.run == m && iter.Valid()
        invariant savedKey == Some(m[at].ik.user)
        invariant forall i :: iter.pos <= i <= at ==> m[i].ik.user == m[at].ik.user
        decreases iter.pos
      {
        iter.Prev();
        if !iter.Valid() || iter.Key().user < savedKey.value {
          break;
        }
        assert !Less(m[at].ik, m[iter.pos].ik);
      }
    }

    method Seek(target: UserKey)
      requires Valid()
      modifies this`direction, this`valid, this`savedKey, this`savedValue, this`at, iter
      ensures Valid() && Cursor() == MoveCursor(Contents(), old(Cursor()), Move.Seek(target))
    {
      hide ScanReady, Sorted, MoveCursor, Live, Rank, View, FirstAtOrAfter, LowerBound;
      SeekIsReady(iter.run, sequence, target);
      SeekLiveMoves(iter.run, sequence, target);
      SeekMoves(Contents(), old(Cursor()), target);
      direction, savedKey, savedValue := Forward, None, "";
      iter.Seek(LookupKey(target, sequence));
      StartAt(LowerBound(iter.run, LookupKey(target, sequence)));
    }

    method SeekToFirst()
      requires Valid()
      modifies this`direction, this`valid, this`savedKey, this`savedValue, this`at, iter
      ensures Valid() && Cursor() == MoveCursor(Contents(), old(Cursor()), Move.First)
    {
      direction, savedValue := Forward, "";
      iter.SeekToFirst();
      StartAt(0);
    }

    /** The common end of Seek and SeekToFirst. */
    method StartAt(ghost start: nat)
      requires Sorted(iter.run) && iter.pos == start <= |iter.run| && direction.Forward?
      requires ScanReady(iter.run, sequence, start, None)
      modifies this`valid, this`savedKey, this`at, iter
      ensures Valid() && Cursor() == AtIndex(Contents(), Rank(iter.run, sequence, start))
    {
      if iter.Valid() {
        FindNextUserEntry(None);
      } else {
        valid := false;
      }
      forall j | start <= j < iter.pos ensures !Live(iter.run, sequence, j) {
        assert !Acceptable(iter.run, sequence, j, None);
      }
      NextLiveIs(iter.run, sequence, start, iter.pos);
      NextLiveMoves(iter.run, sequence, start);
    }

    method SeekToLast()
      requires Valid()
      modifies this`direction, this`valid, this`savedKey, this`savedValue, this`at, iter
      ensures Valid() && Cursor() == MoveCursor(Contents(), old(Cursor()), Move.Last)
    {
      direction, savedValue := Reverse, "";
      iter.SeekToLast();
      PrevLiveMoves(iter.run, sequence, |iter.run|);
      FindPrevUserEntry();
    }
  }

  // ------------------------------------------------------------------ lemmas about live entries

  /** Going backward from `start`, entry `q` is the last visible entry met, and it is a value. */
  ghost predicate LastValue(m: Run, s: nat, n: nat, q: nat, start: nat)
    requires start <= |m|
  {
    && n <= q < start && Visible(m, s, q) && m[q].ik.typ.Value?
    && (forall i :: n <= i < q ==> !Visible(m, s, i))
    && (forall i :: q < i < start ==> !Live(m, s, i))
  }

  lemma UsersAscend(m: Run)
    requires Sorted(m)
    ensures forall i, j :: 0 <= i <= j < |m| ==> m[i].ik.user <= m[j].ik.user
  {
    forall i, j | 0 <= i < j < |m| ensures m[i].ik.user <= m[j].ik.user {
      assert Less(m[i].ik, m[j].ik);
    }
  }

  lemma LastValueIsLive(m: Run, s: nat, n: nat, q: nat, start: nat)
    requires Sorted(m) && start <= |m| && LastValue(m, s, n, q, start)
    requires n > 0 ==> m[n - 1].ik.user < m[q].ik.user
    ensures Live(m, s, q) && PrevLive(m, s, start) == Some(q) && JustBefore(m, s, n, q)
  {
    UsersAscend(m);
  }

  lemma SeekMoves(v: seq<(UserKey, string)>, c: Option<nat>, target: UserKey)
    ensures MoveCursor(v, c, Move.Seek(target)) == AtIndex(v, FirstAtOrAfter(v, target))
  {
  }

  /** A forward scan may start where a seek to the lookup key stops. */
  lemma SeekIsReady(m: Run, s: nat, target: UserKey)
    requires Sorted(m)
    ensures ScanReady(m, s, LowerBound(m, LookupKey(target, s)), None)
  {
    UsersAscend(m);
  }

  /** The backward scan of the entries from `n` to `start`: none is live, or the last value seen, at `q`, is
      saved and none above it is live. */
  ghost predicate Scanned(m: Run, s: nat, n: nat, start: nat, typ: ValueType, q: nat, key: Option<UserKey>,
                          value: string) {
    && n <= start <= |m|
    && (typ.Deletion? ==> forall i :: n <= i < start ==> !Live(m, s, i))
    && (typ.Value? ==> LastValue(m, s, n, q, start) && key == Some(m[q].ik.user) && value == m[q].value)
  }

  lemma NothingScanned(m: Run, s: nat, start: nat, key: Option<UserKey>, value: string)
    requires start <= |m|
    ensures Scanned(m, s, start, start, Deletion, 0, key, value)
  {
  }

  /** One more entry scanned. */
  lemma ScanEntry(m: Run, s: nat, n: nat, start: nat, typ: ValueType, q: nat, key: Option<UserKey>, value: string)
    requires Sorted(m) && 0 < n && Scanned(m, s, n, start, typ, q, key, value)
    ensures var e := m[n - 1];
            && (e.ik.seqno > s ==> Scanned(m, s, n - 1, start, typ, q, key, value))
            && (e.ik.seqno <= s && !(typ.Value? && key.Some? && e.ik.user < key.value) && e.ik.typ.Deletion? ==>
                  Scanned(m, s, n - 1, start, Deletion, q, None, ""))
            && (e.ik.seqno <= s && !(typ.Value? && key.Some? && e.ik.user < key.value) && e.ik.typ.Value? ==>
                  Scanned(m, s, n - 1, start, Value, n - 1, Some(e.ik.user), e.value))
            && (typ.Value? ==> key.Some?)
  {
    UsersAscend(m);
    hide Sorted;
  }

  lemma ScanEnds(m: Run, s: nat, n: nat, start: nat, typ: ValueType, q: nat, key: Option<UserKey>, value: string)
    requires Scanned(m, s, n, start, typ, q, key, value)
    ensures n <= start <= |m|
    ensures typ.Deletion? ==> forall i :: 0 <= n <= i < start ==> !Live(m, s, i)
    ensures typ.Value? ==> LastValue(m, s, n, q, start) && key == Some(m[q].ik.user) && value == m[q].value
  {
    hide Live;
  }

  lemma NoLiveBefore(m: Run, s: nat, start: nat)
    requires start <= |m| && forall i :: 0 <= i < start ==> !Live(m, s, i)
    ensures PrevLive(m, s, start) == None
  {
  }

  lemma NextLiveIs(m: Run, s: nat, i: nat, n: nat)
    requires i <= n <= |m| && (n < |m| ==> Live(m, s, n)) && forall j :: i <= j < n ==> !Live(m, s, j)
    ensures n == NextLive(m, s, i)
  {
  }

  lemma NextIsReady(m: Run, s: nat, start: nat, at: nat)
    requires Sorted(m) && start <= at < |m| && Live(m, s, at)
    requires start == at || JustBefore(m, s, start, at)
    ensures ScanReady(m, s, start, Some(m[at].ik.user))
  {
    UsersAscend(m);
  }

  lemma FirstAcceptableIsNext(m: Run, s: nat, start: nat, at: nat, n: nat)
    requires Sorted(m) && start <= at < |m| && Live(m, s, at) && start <= n <= |m|
    requires n < |m| ==> Acceptable(m, s, n, Some(m[at].ik.user))
    requires forall i :: start <= i < n ==> !Acceptable(m, s, i, Some(m[at].ik.user))
    ensures n == NextLive(m, s, at + 1)
  {
    UsersAscend(m);
    forall j | at + 1 <= j < n ensures !Live(m, s, j) {
      assert Visible(m, s, at);
      assert !Acceptable(m, s, j, Some(m[at].ik.user));
    }
    NextLiveIs(m, s, at + 1, n);
  }

  lemma SameKeyIsNotLive(m: Run, s: nat, n: nat, at: nat)
    requires n <= at < |m| && Live(m, s, at)
    requires forall i :: n <= i < at ==> m[i].ik.user == m[at].ik.user || !Visible(m, s, i)
    ensures PrevLive(m, s, at) == PrevLive(m, s, n)
  {
  }
}
