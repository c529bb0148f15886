/** Internal keys, sorted runs of entries, and what a read at a sequence number means
    (db/dbformat.h, db/dbformat.cc, db/memtable.cc).

    User keys are only ever compared here, so they are numbers, ordered as the user comparator orders
    keys; `Ranks` embeds the byte strings, in their order.  */
module Keys {

  // kMaxSequenceNumber: sequence numbers have 56 bits.
  const MAX_SEQUENCE: nat := 0xFF_FFFF_FFFF_FFFF

  datatype Option<+T> = None | Some(value: T)

  datatype ValueType = Deletion | Value

  type UserKey = real

  datatype IKey = IKey(user: UserKey, seqno: nat, typ: ValueType)

  datatype Entry = Entry(ik: IKey, value: string)

  /** The trailer of an encoded internal key. */
  function Packed(k: IKey): nat {
    k.seqno * 256 + if k.typ.Value? then 1 else 0
  }

  /** InternalKeyComparator: user keys ascending, then sequence numbers (and types) descending. */
  predicate Less(a: IKey, b: IKey) {
    || a.user < b.user
    || (a.user == b.user && (a.seqno > b.seqno || (a.seqno == b.seqno && a.typ.Value? && b.typ.Deletion?)))
  }

  lemma LessComparesTrailers(a: IKey, b: IKey)
    ensures Less(a, b) <==> a.user < b.user || (a.user == b.user && Packed(a) > Packed(b))
    ensures Less(a, b) || a == b || Less(b, a)
    ensures !(Less(a, b) && Less(b, a))
  {
  }

  /** The key a lookup of `user` at sequence `s` seeks to (kValueTypeForSeek is kTypeValue). */
  function LookupKey(user: UserKey, s: nat): IKey {
    IKey(user, s, Value)
  }

  /** A memtable or a table: entries in strictly ascending internal-key order. */
  type Run = seq<Entry>

  predicate Sorted(r: Run) {
    forall i, j :: 0 <= i < j < |r| ==> Less(r[i].ik, r[j].ik)
  }

  ghost function Elems(r: Run): set<Entry> {
    set e | e in r
  }

  // ------------------------------------------------------------------ reading one run

  /** The position Seek(t) stops at: the first entry that is not before `t`. */
  function LowerBound(r: Run, t: IKey): (n: nat)
    ensures n <= |r|
    ensures forall i :: 0 <= i < n ==> Less(r[i].ik, t)
    ensures n < |r| ==> !Less(r[n].ik, t)
  {
    if r == [] || !Less(r[0].ik, t) then 0 else 1 + LowerBound(r[1..], t)
  }

  lemma LowerBoundIs(r: Run, t: IKey, n: nat)
    requires n <= |r| && (forall i :: 0 <= i < n ==> Less(r[i].ik, t)) && (n < |r| ==> !Less(r[n].ik, t))
    ensures LowerBound(r, t) == n
  {
  }

  /** Seek to the lookup key, then keep the entry found only if it is for the same user key. */
  function RunGet(r: Run, user: UserKey, s: nat): Option<Entry> {
    var i := LowerBound(r, LookupKey(user, s));
    if i < |r| && r[i].ik.user == user then Some(r[i]) else None
  }

  // ------------------------------------------------------------------ what a read means

  /** `e` is the newest entry for `user` in `es` with a sequence number of at most `s`. */
  ghost predicate IsNewest(es: set<Entry>, user: UserKey, s: nat, e: Entry) {
    && e in es && e.ik.user == user && e.ik.seqno <= s
    && forall x :: x in es && x.ik.user == user && x.ik.seqno <= s ==> x.ik.seqno <= e.ik.seqno
  }

  ghost predicate NothingVisible(es: set<Entry>, user: UserKey, s: nat) {
    forall x :: x in es && x.ik.user == user ==> x.ik.seqno > s
  }

  /** `found` is what a search of all of `es` for `user` at `s` must deliver. */
  ghost predicate Finds(es: set<Entry>, user: UserKey, s: nat, found: Option<Entry>) {
    match found
    case Some(e) => IsNewest(es, user, s, e)
    case None => NothingVisible(es, user, s)
  }

  /** The client's view of a search result: a deletion marker reads as "not found". */
  function Answer(found: Option<Entry>): Option<string> {
    if found.Some? && found.value.ik.typ.Value? then Some(found.value.value) else None
  }

  lemma RunGetFinds(r: Run, user: UserKey, s: nat)
    requires Sorted(r)
    ensures Finds(Elems(r), user, s, RunGet(r, user, s))
  {
    var t := LookupKey(user, s);
    var n := LowerBound(r, t);
    forall x | x in r && x.ik.user == user && x.ik.seqno <= s
      ensures n < |r| && r[n].ik.user == user && x.ik.seqno <= r[n].ik.seqno
    {
      var i :| 0 <= i < |r| && r[i] == x;
      assert n <= i;
    }
  }

  // ------------------------------------------------------------------ the reference: replaying writes

  /** The reference semantics of a database: replay the writes up to sequence `s` into a map. */
  function Replay(h: seq<Entry>, s: nat): map<UserKey, string> {
    if h == [] then map[] else
    var m, e := Replay(h[..|h| - 1], s), h[|h| - 1];
    if e.ik.seqno > s then m
    else if e.ik.typ.Value? then m[e.ik.user := e.value]
    else m - {e.ik.user}
  }

  function Lookup(m: map<UserKey, string>, user: UserKey): Option<string> {
    if user in m then Some(m[user]) else None
  }

  /** Sequence numbers strictly increase along a history. */
  predicate Chronological(h: seq<Entry>) {
    forall i, j :: 0 <= i < j < |h| ==> h[i].ik.seqno < h[j].ik.seqno
  }

  lemma ReplayAppends(log: seq<Entry>, e: Entry, user: UserKey, s: nat)
    ensures Lookup(Replay(log + [e], s), user) ==
            if user == e.ik.user && e.ik.seqno <= s then Answer(Some(e)) else Lookup(Replay(log, s), user)
  {
    assert (log + [e])[..|log + [e]| - 1] == log;
  }

  /** Any complete search of a history's entries agrees with replaying the history. */
  lemma {:induction false} SearchIsReplay(h: seq<Entry>, user: UserKey, s: nat, found: Option<Entry>)
    requires Chronological(h)
    requires Finds(Elems(h), user, s, found)
    ensures Answer(found) == Lookup(Replay(h, s), user)
  {
    if h != [] {
      hide Replay, Lookup, Answer, Finds, Elems, Chronological;
      var h', e := h[..|h| - 1], h[|h| - 1];
      assert h == h' + [e];
      ReplayAppends(h', e, user, s);
      if e.ik.user == user && e.ik.seqno <= s {
        LastIsFound(h, user, s, found);
      } else {
        LastIsIgnored(h, user, s, found);
        SearchIsReplay(h', user, s, found);
      }
    }
  }

  lemma LastIsFound(h: seq<Entry>, user: UserKey, s: nat, found: Option<Entry>)
    requires h != [] && Chronological(h) && Finds(Elems(h), user, s, found)
    requires h[|h| - 1].ik.user == user && h[|h| - 1].ik.seqno <= s
    ensures found == Some(h[|h| - 1])
  {
    assert h[|h| - 1] in Elems(h);
    var i :| 0 <= i < |h| && h[i] == found.value;
    assert i == |h| - 1;
  }

  lemma LastIsIgnored(h: seq<Entry>, user: UserKey, s: nat, found: Option<Entry>)
    requires h != [] && Chronological(h) && Finds(Elems(h), user, s, found)
    requires h[|h| - 1].ik.user != user || h[|h| - 1].ik.seqno > s
    ensures Chronological(h[..|h| - 1]) && Finds(Elems(h[..|h| - 1]), user, s, found)
  {
    var h', e := h[..|h| - 1], h[|h| - 1];
    assert h == h' + [e] && Elems(h) == Elems(h') + {e};
  }
}
