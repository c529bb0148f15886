/** One shard of the block cache: reference-counted handles in an LRU list, an in-use list and a
    hash table (util/cache.cc).  Handles are numbered in order of allocation; the two linked
    lists are sequences, oldest entry first.  */
module LruCaches {
  import opened Keys
  import opened HandleTables

  datatype Handle = Handle(key: int, hash: nat, value: int, charge: nat, refs: nat, inCache: bool)

  function Named(h: Handle): Name {
    (h.key, h.hash)
  }

  // ------------------------------------------------------------------ the invariant, part by part

  predicate NoRepeats(list: seq<nat>) {
    forall i, j :: 0 <= i < j < |list| ==> list[i] != list[j]
  }

  datatype Place = Nowhere | OnLru | InUse

  /** A cached entry is on the LRU list if only the cache refers to it, else on the in-use list. */
  function PlaceOf(h: Handle): Place {
    if !h.inCache || h.refs == 0 then Nowhere else if h.refs == 1 then OnLru else InUse
  }

  ghost predicate ListFor(handles: seq<Handle>, list: seq<nat>, p: Place) {
    NoRepeats(list) && forall h: nat :: h in list <==> h < |handles| && PlaceOf(handles[h]) == p
  }

  /** The deleter has run, once, for exactly the handles without references. */
  ghost predicate DeletedOk(handles: seq<Handle>, deleted: seq<nat>) {
    && NoRepeats(deleted)
    && (forall h: nat :: h in deleted <==> h < |handles| && handles[h].refs == 0)
    && (forall h: nat :: h < |handles| && handles[h].refs == 0 ==> !handles[h].inCache)
  }

  /** The hash table holds exactly the cached handles but `except`. */
  ghost predicate TableOk(contents: map<Name, nat>, handles: seq<Handle>, except: Option<nat>) {
    && (forall n :: n in contents ==>
          && contents[n] < |handles| && except != Some(contents[n])
          && handles[contents[n]].inCache && Named(handles[contents[n]]) == n)
    && (forall h: nat :: h < |handles| && handles[h].inCache && except != Some(h) ==>
          Named(handles[h]) in contents && contents[Named(handles[h])] == h)
  }

  function Charges(handles: seq<Handle>, list: seq<nat>): nat {
    if list == [] then 0 else
    var h := list[|list| - 1];
    Charges(handles, list[..|list| - 1]) + if h < |handles| then handles[h].charge else 0
  }

  // ------------------------------------------------------------------ lists

  function Without(list: seq<nat>, e: nat): (r: seq<nat>)
    ensures forall h :: h in r <==> h in list && h != e
  {
    if list == [] then [] else
    Without(list[..|list| - 1], e) + if list[|list| - 1] == e then [] else [list[|list| - 1]]
  }

  lemma {:induction false} WithoutKeeps(list: seq<nat>, e: nat)
    requires NoRepeats(list)
    ensures NoRepeats(Without(list, e))
    ensures e !in list ==> Without(list, e) == list
  {
    if list != [] {
      var init, last := list[..|list| - 1], list[|list| - 1];
      WithoutKeeps(init, e);
      assert last !in init;
      var rest := Without(init, e);
      AppendFresh(rest, last);
      assert init + [last] == list;
      assert e !in list ==> rest + [last] == list;
    }
  }

  lemma {:induction false} ChargesWithout(handles: seq<Handle>, list: seq<nat>, e: nat)
    requires NoRepeats(list) && e in list && e < |handles|
    ensures Charges(handles, Without(list, e)) + handles[e].charge == Charges(handles, list)
  {
    var init, last := list[..|list| - 1], list[|list| - 1];
    if last == e {
      WithoutKeeps(init, e);
      assert Without(list, e) == init;
    } else {
      ChargesWithout(handles, init, e);
      assert Without(list, e)[..|Without(list, e)| - 1] == Without(init, e);
    }
  }

  lemma {:induction false} SameCharges(handles: seq<Handle>, handles': seq<Handle>, list: seq<nat>)
    requires |handles| <= |handles'|
    requires forall h :: h in list ==> h < |handles| && handles'[h].charge == handles[h].charge
    ensures Charges(handles', list) == Charges(handles, list)
  {
    if list != [] {
      var init := list[..|list| - 1];
      assert (forall h :: h in init ==> h in list) && list[|list| - 1] in list;
      SameCharges(handles, handles', init);
    }
  }

  lemma ChargesAppend(handles: seq<Handle>, list: seq<nat>, e: nat)
    requires e < |handles|
    ensures Charges(handles, list + [e]) == Charges(handles, list) + handles[e].charge
  {
    assert (list + [e])[..|list|] == list;
  }

  lemma AppendFresh(list: seq<nat>, e: nat)
    requires NoRepeats(list) && e !in list
    ensures NoRepeats(list + [e])
  {
  }

  lemma {:induction false} WithoutFirst(list: seq<nat>)
    requires list != [] && NoRepeats(list)
    ensures Without(list, list[0]) == list[1..]
  {
    if |list| > 1 {
      var init := list[..|list| - 1];
      WithoutFirst(init);
      assert list[|list| - 1] != list[0];
      assert init[1..] + [list[|list| - 1]] == list[1..];
    } else {
      assert list[..0] == [];
    }
  }

  // ------------------------------------------------------------------ one handle changes

  ghost predicate Core(handles: seq<Handle>, lru: seq<nat>, inUse: seq<nat>, deleted: seq<nat>, usage: nat) {
    && ListFor(handles, lru, OnLru) && ListFor(handles, inUse, InUse) && DeletedOk(handles, deleted)
    && usage == Charges(handles, lru) + Charges(handles, inUse)
  }

  /** The list for place `p` after handle `e` has moved from one place to another. */
  function Relisted(list: seq<nat>, p: Place, e: nat, from: Place, to: Place): seq<nat> {
    if from == to then list else if from == p then Without(list, e) else if to == p then list + [e] else list
  }

  function ChargeAt(h: Handle, p: Place): nat {
    if PlaceOf(h) == p then h.charge else 0
  }

  lemma ListMoves(handles: seq<Handle>, list: seq<nat>, p: Place, e: nat, h: Handle)
    requires ListFor(handles, list, p) && p != Nowhere && e < |handles|
    ensures ListFor(handles[e := h], Relisted(list, p, e, PlaceOf(handles[e]), PlaceOf(h)), p)
  {
    hide PlaceOf, NoRepeats;
    var from, to := PlaceOf(handles[e]), PlaceOf(h);
    if from == p && to != p {
      WithoutKeeps(list, e);
    } else if from != p && to == p {
      AppendFresh(list, e);
    }
  }

  lemma ListChanges(handles: seq<Handle>, list: seq<nat>, p: Place, e: nat, h: Handle)
    requires ListFor(handles, list, p) && p != Nowhere && e < |handles| && h.charge == handles[e].charge
    ensures var list' := Relisted(list, p, e, PlaceOf(handles[e]), PlaceOf(h));
            && ListFor(handles[e := h], list', p)
            && Charges(handles[e := h], list') + ChargeAt(handles[e], p) == Charges(handles, list) + ChargeAt(h, p)
  {
    hide PlaceOf, NoRepeats, Charges;
    var handles', from, to := handles[e := h], PlaceOf(handles[e]), PlaceOf(h);
    ListMoves(handles, list, p, e, h);
    SameCharges(handles, handles', list);
    if from == p && to != p {
      ChargesWithout(handles', list, e);
    } else if from != p && to == p {
      ChargesAppend(handles', list, e);
    }
  }

  lemma ListExtends(handles: seq<Handle>, list: seq<nat>, p: Place, h: Handle)
    requires ListFor(handles, list, p) && p != Nowhere
    ensures |handles| !in list
    ensures ListFor(handles + [h], if PlaceOf(h) == p then list + [|handles|] else list, p)
  {
    hide PlaceOf, NoRepeats;
    AppendFresh(list, |handles|);
  }

  lemma ListGains(handles: seq<Handle>, list: seq<nat>, p: Place, h: Handle)
    requires ListFor(handles, list, p) && p != Nowhere
    ensures var list' := if PlaceOf(h) == p then list + [|handles|] else list;
            ListFor(handles + [h], list', p) && Charges(handles + [h], list') == Charges(handles, list) + ChargeAt(h, p)
  {
    hide PlaceOf, NoRepeats, Charges;
    ListExtends(handles, list, p, h);
    SameCharges(handles, handles + [h], list);
    ChargesAppend(handles + [h], list, |handles|);
  }

  lemma DeletedStays(handles: seq<Handle>, deleted: seq<nat>, e: nat, h: Handle)
    requires DeletedOk(handles, deleted) && e < |handles| && handles[e].refs > 0
    requires h.refs == 0 ==> !h.inCache
    ensures DeletedOk(handles[e := h], if h.refs == 0 then deleted + [e] else deleted)
  {
    AppendFresh(deleted, e);
  }

  /** Handle `e` changes to `h` with the same charge, in step with the lists and the deleter. */
  lemma CoreChanges(handles: seq<Handle>, lru: seq<nat>, inUse: seq<nat>, deleted: seq<nat>, usage: nat, e: nat,
                    h: Handle)
    requires Core(handles, lru, inUse, deleted, usage) && e < |handles| && handles[e].refs > 0
    requires h.charge == handles[e].charge && (h.refs == 0 ==> !h.inCache) &&
             (h.inCache == handles[e].inCache || !h.inCache)
    ensures handles[e].inCache && !h.inCache ==> usage >= h.charge
    ensures var from, to := PlaceOf(handles[e]), PlaceOf(h);
            Core(handles[e := h], Relisted(lru, OnLru, e, from, to), Relisted(inUse, InUse, e, from, to),
                 if h.refs == 0 then deleted + [e] else deleted,
                 if handles[e].inCache && !h.inCache then usage - h.charge else usage)
  {
    hide ListFor, Charges, DeletedOk, Relisted;
    ListChanges(handles, lru, OnLru, e, h);
    ListChanges(handles, inUse, InUse, e, h);
    DeletedStays(handles, deleted, e, h);
  }

  lemma CoreGains(handles: seq<Handle>, lru: seq<nat>, inUse: seq<nat>, deleted: seq<nat>, usage: nat, h: Handle)
    requires Core(handles, lru, inUse, deleted, usage) && (if h.inCache then h.refs == 2 else h.refs == 1)
    ensures Core(handles + [h], lru, if h.inCache then inUse + [|handles|] else inUse, deleted,
                 if h.inCache then usage + h.charge else usage)
  {
    hide ListFor, Charges;
    ListGains(handles, lru, OnLru, h);
    ListGains(handles, inUse, InUse, h);
  }

  // ------------------------------------------------------------------ the hash table and the handles

  lemma TableForgets(contents: map<Name, nat>, handles: seq<Handle>, n: Name)
    requires TableOk(contents, handles, None)
    ensures TableOk(contents - {n}, handles, if n in contents then Some(contents[n]) else None)
  {
  }

  lemma TableChanges(contents: map<Name, nat>, handles: seq<Handle>, except: Option<nat>, e: nat, h: Handle)
    requires TableOk(contents, handles, except) && e < |handles| && Named(h) == Named(handles[e])
    requires h.inCache == handles[e].inCache || (except == Some(e) && !h.inCache)
    ensures TableOk(contents, handles[e := h], if h.inCache == handles[e].inCache then except else None)
  {
  }

  lemma TableGains(contents: map<Name, nat>, handles: seq<Handle>, h: Handle)
    requires TableOk(contents, handles, None)
    ensures if h.inCache
            then TableOk(contents[Named(h) := |handles|], handles + [h],
              if Named(h) in contents then Some(contents[Named(h)]) else None)
            else TableOk(contents, handles + [h], None)
  {
  }

  function Values(contents: map<Name, nat>, handles: seq<Handle>): map<Name, int> {
    map n | n in contents && contents[n] < |handles| :: handles[contents[n]].value
  }

  ghost predicate SameValues(handles: seq<Handle>, handles': seq<Handle>) {
    |handles| == |handles'| && forall h :: 0 <= h < |handles| ==> handles'[h].value == handles[h].value
  }

  lemma ValuesForget(contents: map<Name, nat>, handles: seq<Handle>, handles': seq<Handle>, n: Name)
    requires SameValues(handles, handles')
    ensures Values(contents - {n}, handles') == Values(contents, handles) - {n}
  {
  }

  lemma ValuesStay(contents: map<Name, nat>, handles: seq<Handle>, handles': seq<Handle>)
    requires SameValues(handles, handles')
    ensures Values(contents, handles') == Values(contents, handles)
  {
  }

  lemma OneHandleSame(handles: seq<Handle>, e: nat, h: Handle)
    requires e < |handles| && h.value == handles[e].value
    ensures SameValues(handles, handles[e := h])
  {
  }

  lemma OldestIsHandle(handles: seq<Handle>, lru: seq<nat>)
    requires ListFor(handles, lru, OnLru) && lru != []
    ensures lru[0] < |handles| && handles[lru[0]].inCache && handles[lru[0]].refs == 1
    ensures Without(lru, lru[0]) == lru[1..]
  {
    assert lru[0] in lru;
    WithoutFirst(lru);
  }

  // ------------------------------------------------------------------ LRUCache

  class LRUCache {
    const capacity: nat
    const table: HandleTable
    var usage: nat
    var handles: seq<Handle>
    var lru: seq<nat>
    var inUse: seq<nat>
    // The handles passed to their deleters, in order.
    var deleted: seq<nat>

    /** All but the hash table's contents. */
    ghost predicate ListsValid()
      reads this, table
    {
      table.Valid() && Core(handles, lru, inUse, deleted, usage)
    }

    ghost predicate Valid()
      reads this, table
    {
      ListsValid() && TableOk(table.contents, handles, None)
    }

    /** What a lookup can find. */
    ghost function Cached(): map<Name, int>
      requires Valid()
      reads this, table
    {
      Values(table.contents, handles)
    }

    /** References held by clients. */
    function ClientRefs(e: nat): int
      requires e < |handles|
      reads this
    {
      handles[e].refs - if handles[e].inCache then 1 else 0
    }

    constructor (capacity: nat)
      ensures Valid() && fresh(table) && this.capacity == capacity && handles == [] && Cached() == map[]
    {
      this.capacity := capacity;
      table := new HandleTable();
      usage, handles, lru, inUse, deleted := 0, [], [], [], [];
    }

    method LruRemove(e: nat)
      modifies this`lru, this`inUse
      ensures lru == Without(old(lru), e) && inUse == Without(old(inUse), e)
    {
      lru, inUse := Without(lru, e), Without(inUse, e);
    }

    method Ref(e: nat)
      requires ListsValid() && e < |handles| && handles[e].refs >= 1
      modifies this`handles, this`lru, this`inUse
      ensures ListsValid() && handles == old(handles)[e := old(handles)[e].(refs := old(handles)[e].refs + 1)]
      ensures lru == if old(handles)[e].refs == 1 && handles[e].inCache then Without(old(lru), e) else old(lru)
    {
      hide ListFor, Charges, DeletedOk;
      CoreChanges(handles, lru, inUse, deleted, usage, e, handles[e].(refs := handles[e].refs + 1));
      OtherList(handles, lru, inUse, e);
      if handles[e].refs == 1 && handles[e].inCache {
        LruRemove(e);
        inUse := inUse + [e];
      }
      handles := handles[e := handles[e].(refs := handles[e].refs + 1)];
    }

    /** Drops a reference; the cache's own only once the handle is no longer cached. */
    method Unref(e: nat)
      requires ListsValid() && e < |handles| && ClientRefs(e) >= 1
      modifies this`handles, this`lru, this`inUse, this`deleted
      ensures ListsValid() && handles == old(handles)[e := old(handles)[e].(refs := old(handles)[e].refs - 1)]
      ensures deleted == if handles[e].refs == 0 then old(deleted) + [e] else old(deleted)
      ensures !handles[e].inCache ==> lru == old(lru) && inUse == old(inUse)
      ensures handles[e].inCache ==>
                lru == if handles[e].refs == 1 then Without(old(lru), e) + [e] else old(lru)
    {
      hide ListFor, Charges, DeletedOk;
      CoreChanges(handles, lru, inUse, deleted, usage, e, handles[e].(refs := handles[e].refs - 1));
      OtherList(handles, lru, inUse, e);
      handles := handles[e := handles[e].(refs := handles[e].refs - 1)];
      if handles[e].refs == 0 {
        deleted := deleted + [e];
      } else if handles[e].inCache && handles[e].refs == 1 {
        LruRemove(e);
        lru := lru + [e];
      }
    }

    /** Finish removing an entry that has left the hash table. */
    method FinishErase(e: nat)
      requires ListsValid() && e < |handles| && handles[e].inCache && TableOk(table.contents, handles, Some(e))
      modifies this`handles, this`lru, this`inUse, this`deleted, this`usage
      ensures Valid()
      ensures usage == old(usage) - old(handles)[e].charge
      ensures lru == Without(old(lru), e) && inUse == Without(old(inUse), e)
      ensures handles == old(handles)[e := old(handles)[e].(inCache := false, refs := old(handles)[e].refs - 1)]
      ensures deleted == if handles[e].refs == 0 then old(deleted) + [e] else old(deleted)
      ensures SameValues(old(handles), handles)
    {
      hide ListFor, Charges, DeletedOk, TableOk, Without;
      CachedHasRef(handles, lru, inUse, deleted, usage, e);
      var h := handles[e].(inCache := false);
      CoreChanges(handles, lru, inUse, deleted, usage, e, h);
      OtherList(handles, lru, inUse, e);
      TableChanges(table.contents, handles, Some(e), e, h);
      LruRemove(e);
      usage := usage - handles[e].charge;
      handles := handles[e := h];
      TableChanges(table.contents, handles, None, e, handles[e].(refs := handles[e].refs - 1));
      Unref(e);
    }

    method Lookup(key: int, hash: nat) returns (e: Option<nat>)
      requires Valid()
      modifies this`handles, this`lru, this`inUse
      ensures Valid() && Cached() == old(Cached())
      ensures e.Some? <==> (key, hash) in Cached()
      ensures e.Some? ==> e.value < |handles| && handles[e.value].value == Cached()[(key, hash)]
      ensures e.None? ==> handles == old(handles)
      ensures e.Some? ==>
                && e.value < |old(handles)|
                && handles == old(handles)[e.value := old(handles)[e.value].(refs := old(handles)[e.value].refs + 1)]
      ensures lru == if e.Some? && handles[e.value].refs == 2 then Without(old(lru), e.value) else old(lru)
    {
      hide ListFor, Charges, DeletedOk, Values, SameValues, TableOk;
      ValueAt(table.contents, handles, (key, hash));
      FoundIsCached(table.contents, handles, (key, hash));
      e := table.Lookup(key, hash);
      if e.Some? {
        CachedHasRef(handles, lru, inUse, deleted, usage, e.value);
        var h := handles[e.value].(refs := handles[e.value].refs + 1);
        TableChanges(table.contents, handles, None, e.value, h);
        OneHandleSame(handles, e.value, h);
        ValuesStay(table.contents, handles, handles[e.value := h]);
        Ref(e.value);
      }
    }

    /** The caller gives back a reference of its own. */
    method Release(e: nat)
      requires Valid() && e < |handles| && ClientRefs(e) >= 1
      modifies this`handles, this`lru, this`inUse, this`deleted
      ensures Valid() && Cached() == old(Cached())
      ensures handles == old(handles)[e := old(handles)[e].(refs := old(handles)[e].refs - 1)]
      ensures deleted == if handles[e].refs == 0 then old(deleted) + [e] else old(deleted)
      ensures lru == if handles[e].inCache && handles[e].refs == 1 then Without(old(lru), e) + [e] else old(lru)
    {
      hide ListFor, Charges, DeletedOk, Values, SameValues;
      var h := handles[e].(refs := handles[e].refs - 1);
      TableChanges(table.contents, handles, None, e, h);
      OneHandleSame(handles, e, h);
      ValuesStay(table.contents, handles, handles[e := h]);
      Unref(e);
    }

    method Erase(key: int, hash: nat)
      requires Valid()
      modifies this`handles, this`lru, this`inUse, this`deleted, this`usage, table
      ensures Valid() && Cached() == old(Cached()) - {(key, hash)}
      ensures (key, hash) !in old(table.contents) ==> lru == old(lru) && handles == old(handles)
      ensures (key, hash) in old(table.contents) ==>
                var e := old(table.contents)[(key, hash)];
                lru == Without(old(lru), e) && |handles| == |old(handles)| && e < |handles| && !handles[e].inCache
                && handles[e].refs + 1 == old(handles)[e].refs
    {
      hide ListFor, Charges, DeletedOk, Without, TableOk, Values, SameValues;
      TableForgets(table.contents, handles, (key, hash));
      FoundIsCached(table.contents, handles, (key, hash));
      SameAll(handles);
      ValuesForget(table.contents, handles, handles, (key, hash));
      var e := table.Remove(key, hash);
      if e.Some? {
        FinishErase(e.value);
        ValuesStay(table.contents, old(handles), handles);
      }
    }

    /** Insert, up to making room: the new handle is in use by the caller, and replaces an older
        entry of the same name. */
    method AddEntry(key: int, hash: nat, value: int, charge: nat) returns (e: nat)
      requires Valid()
      modifies this`handles, this`lru, this`inUse, this`deleted, this`usage, table
      ensures Valid() && e == |old(handles)| && |handles| == e + 1
      ensures handles[e] == Handle(key, hash, value, charge, if capacity > 0 then 2 else 1, capacity > 0)
      ensures Cached() == if capacity > 0 then old(Cached())[(key, hash) := value] else old(Cached())
      ensures lru == if capacity > 0 && (key, hash) in old(table.contents)
                     then Without(old(lru), old(table.contents)[(key, hash)]) else old(lru)
    {
      hide ListFor, Charges, DeletedOk, TableOk, Values, SameValues, Without;
      e := |handles|;
      var h := Handle(key, hash, value, charge, if capacity > 0 then 2 else 1, capacity > 0);
      CoreGains(handles, lru, inUse, deleted, usage, h);
      TableGains(table.contents, handles, h);
      FoundIsCached(table.contents, handles, (key, hash));
      ValuesGain(table.contents, handles, h);
      handles := handles + [h];
      if capacity > 0 {
        inUse := inUse + [e];
        usage := usage + charge;
        var old_ := table.Insert(Slot(key, hash, e));
        if old_.Some? {
          label before:
          FinishErase(old_.value);
          ValuesStay(table.contents, old@before(handles), handles);
        }
      }
    }

    /** Insert a new entry and make room for it: the oldest unused entries go first, and no more of
        them than needed. */
    method Insert(key: int, hash: nat, value: int, charge: nat) returns (e: nat)
      requires Valid()
      modifies this`handles, this`lru, this`inUse, this`deleted, this`usage, table
      ensures Valid() && e == |old(handles)| && e < |handles|
      ensures handles[e] == Handle(key, hash, value, charge, if capacity > 0 then 2 else 1, capacity > 0)
      ensures usage <= capacity || lru == []
      ensures capacity > 0 ==> (key, hash) in Cached() && Cached()[(key, hash)] == value
      ensures forall n :: n in Cached() ==>
                if capacity > 0 && n == (key, hash) then Cached()[n] == value
                else n in old(Cached()) && Cached()[n] == old(Cached())[n]
      ensures var kept := if capacity > 0 && (key, hash) in old(table.contents)
                          then Without(old(lru), old(table.contents)[(key, hash)]) else old(lru);
              exists k: nat :: k <= |kept| && lru == kept[k..] && Needed(handles, kept, k, usage, capacity)
                  && Cached().Keys == (old(Cached()).Keys + if capacity > 0 then {(key, hash)} else {})
                                      - NamesOf(handles, kept[..k])
    {
      hide ListFor, Charges, DeletedOk, TableOk, Values, SameValues, Without, NamesOf, Evicted, Needed;
      e := AddEntry(key, hash, value, charge);
      if capacity > 0 {
        CachedIsFound(table.contents, handles, e);
      }
      NewIsInUse(handles, lru, e);
      ghost var kept, cached, before := lru, Cached(), handles;
      ghost var k := MakeRoom();
      EvictedLeaves(cached, Cached(), before, handles, kept, k, e);
      if capacity > 0 {
        CachedIsFound(table.contents, handles, e);
        ValueAt(table.contents, handles, (key, hash));
      }
      assert k <= |kept| && lru == kept[k..];
    }

    /** Evict the oldest unused entries until the rest fits, or all of them. */
    method MakeRoom() returns (ghost k: nat)
      requires Valid()
      modifies this`handles, this`lru, this`inUse, this`deleted, this`usage, table
      ensures Valid() && inUse == old(inUse) && (usage <= capacity || lru == [])
      ensures k <= |old(lru)| && lru == old(lru)[k..] && deleted == old(deleted) + old(lru)[..k]
      ensures Needed(handles, old(lru), k, usage, capacity)
      ensures Evicted(old(Cached()), Cached(), old(handles), handles, old(lru), k)
    {
      hide ListFor, Charges, DeletedOk, TableOk, Values, SameValues, Without, NamesOf, Evicted, Needed;
      k := 0;
      NoneEvicted(Cached(), handles, lru, usage, capacity);
      while usage > capacity && lru != []
        invariant Valid() && inUse == old(inUse)
        invariant k <= |old(lru)| && lru == old(lru)[k..] && deleted == old(deleted) + old(lru)[..k]
        invariant Needed(handles, old(lru), k, usage, capacity)
        invariant Evicted(old(Cached()), Cached(), old(handles), handles, old(lru), k)
        decreases |lru|
      {
        EvictNext(old(Cached()), old(handles), old(lru), k);
        k := k + 1;
      }
    }

    /** One turn of that loop. */
    method EvictNext(ghost cached0: map<Name, int>, ghost handles0: seq<Handle>, ghost lru0: seq<nat>, ghost k: nat)
      requires Valid() && usage > capacity && k < |lru0| && lru == lru0[k..]
      requires Evicted(cached0, Cached(), handles0, handles, lru0, k)
      modifies this`handles, this`lru, this`inUse, this`deleted, this`usage, table
      ensures Valid() && inUse == old(inUse) && lru == lru0[k + 1..] && deleted == old(deleted) + [lru0[k]]
      ensures Needed(handles, lru0, k + 1, usage, capacity)
      ensures Evicted(cached0, Cached(), handles0, handles, lru0, k + 1)
    {
      hide ListFor, Charges, DeletedOk, TableOk, Values, SameValues, Without, NamesOf, Evicted, Needed;
      OldestIsHandle(handles, lru);
      ghost var cached, before, e := Cached(), handles, lru[0];
      EvictOldest();
      SameEntry(before, handles, e);
      LastWasNeeded(before, handles, lru0, k, usage, capacity);
      OneEvicted(cached0, cached, Cached(), handles0, before, handles, lru0, k);
    }

    /** Evict the least recently used entry: its only reference was the cache's. */
    method EvictOldest()
      requires Valid() && lru != [] && lru[0] < |handles|
      modifies this`handles, this`lru, this`inUse, this`deleted, this`usage, table
      ensures Valid() && lru == old(lru)[1..] && inUse == old(inUse)
      ensures usage == old(usage) - old(handles)[old(lru)[0]].charge
      ensures Cached() == old(Cached()) - {Named(old(handles)[old(lru)[0]])}
      ensures deleted == old(deleted) + [old(lru)[0]]
      ensures var e := old(lru)[0];
              handles == old(handles)[e := old(handles)[e].(inCache := false, refs := old(handles)[e].refs - 1)]
    {
      hide ListFor, Charges, DeletedOk, Without, TableOk, Values, SameValues;
      var e := lru[0];
      OldestIsHandle(handles, lru);
      OtherList(handles, lru, inUse, e);
      CachedIsFound(table.contents, handles, e);
      TableForgets(table.contents, handles, Named(handles[e]));
      SameAll(handles);
      ValuesForget(table.contents, handles, handles, Named(handles[e]));
      var removed := table.Remove(handles[e].key, handles[e].hash);
      FinishErase(e);
      ValuesStay(table.contents, old(handles), handles);
    }

    method Prune()
      requires Valid()
      modifies this`handles, this`lru, this`inUse, this`deleted, this`usage, table
      ensures Valid() && lru == [] && inUse == old(inUse) && deleted == old(deleted) + old(lru)
    {
      hide ListFor, Charges, DeletedOk, Without, TableOk;
      ghost var k := 0;
      while lru != []
        invariant Valid() && k <= |old(lru)| && lru == old(lru)[k..] && inUse == old(inUse)
        invariant deleted == old(deleted) + old(lru)[..k]
        decreases |lru|
      {
        OldestIsHandle(handles, lru);
        EvictOldest();
        k := k + 1;
      }
    }
  }

  /** The names of the entries on a list. */
  ghost function NamesOf(handles: seq<Handle>, list: seq<nat>): set<Name> {
    set i | 0 <= i < |list| && list[i] < |handles| :: Named(handles[list[i]])
  }

  /** What a client holds is not on the LRU list. */
  lemma NewIsInUse(handles: seq<Handle>, lru: seq<nat>, e: nat)
    requires ListFor(handles, lru, OnLru) && e < |handles| && handles[e].refs == if handles[e].inCache then 2 else 1
    ensures e !in lru
  {
  }

  /** What the eviction of the first `k` entries of the list leaves. */
  ghost predicate Evicted(cached: map<Name, int>, cached': map<Name, int>, handles: seq<Handle>, handles': seq<Handle>,
                          lru: seq<nat>, k: nat)
    requires k <= |lru|
  {
    && cached' == cached - NamesOf(handles', lru[..k]) && |handles'| == |handles|
    && forall h: nat :: h < |handles| && h !in lru ==> handles'[h] == handles[h]
  }

  /** Without the last eviction the rest would not fit. */
  ghost predicate Needed(handles: seq<Handle>, lru: seq<nat>, k: nat, usage: nat, capacity: nat) {
    k > 0 ==> k <= |lru| && lru[k - 1] < |handles| && usage + handles[lru[k - 1]].charge > capacity
  }

  lemma SameEntry(before: seq<Handle>, after: seq<Handle>, e: nat)
    requires e < |before| && before[e].refs > 0
    requires after == before[e := before[e].(inCache := false, refs := before[e].refs - 1)]
    ensures |after| == |before| && after[e].charge == before[e].charge && Named(after[e]) == Named(before[e])
    ensures after == before[e := after[e]]
  {
  }

  lemma LastWasNeeded(before: seq<Handle>, after: seq<Handle>, lru: seq<nat>, k: nat, usage: nat, capacity: nat)
    requires k < |lru| && lru[k] < |before| == |after| && after[lru[k]].charge == before[lru[k]].charge
    requires usage + before[lru[k]].charge > capacity
    ensures Needed(after, lru, k + 1, usage, capacity)
  {
  }

  lemma NoneEvicted(cached: map<Name, int>, handles: seq<Handle>, lru: seq<nat>, usage: nat, capacity: nat)
    ensures Needed(handles, lru, 0, usage, capacity)
    ensures Evicted(cached, cached, handles, handles, lru, 0)
  {
    assert NamesOf(handles, lru[..0]) == {};
  }

  lemma OneEvicted(cached: map<Name, int>, now: map<Name, int>, now': map<Name, int>, handles: seq<Handle>,
                   before: seq<Handle>, after: seq<Handle>, lru: seq<nat>, k: nat)
    requires k < |lru| && lru[k] < |before| == |after| && Evicted(cached, now, handles, before, lru, k)
    requires Named(after[lru[k]]) == Named(before[lru[k]]) && after == before[lru[k] := after[lru[k]]]
    requires now' == now - {Named(before[lru[k]])}
    ensures Evicted(cached, now', handles, after, lru, k + 1)
  {
    NamesGrow(before, after, lru, k);
  }

  lemma EvictedLeaves(cached: map<Name, int>, cached': map<Name, int>, handles: seq<Handle>, handles': seq<Handle>,
                      lru: seq<nat>, k: nat, e: nat)
    requires k <= |lru| && Evicted(cached, cached', handles, handles', lru, k) && e < |handles| && e !in lru
    ensures |handles'| == |handles| && handles'[e] == handles[e]
    ensures cached'.Keys == cached.Keys - NamesOf(handles', lru[..k])
    ensures forall n :: n in cached' ==> n in cached && cached'[n] == cached[n]
  {
  }

  lemma NamesGrow(handles: seq<Handle>, handles': seq<Handle>, list: seq<nat>, k: nat)
    requires k < |list| && list[k] < |handles| == |handles'|
    requires forall h: nat :: h < |handles| ==> Named(handles'[h]) == Named(handles[h])
    ensures NamesOf(handles', list[..k + 1]) == NamesOf(handles, list[..k]) + {Named(handles[list[k]])}
  {
    assert list[..k + 1] == list[..k] + [list[k]];
    forall n
      ensures n in NamesOf(handles', list[..k + 1]) <==> n in NamesOf(handles, list[..k]) + {Named(handles[list[k]])}
    {
      assert list[..k + 1][k] == list[k];
    }
  }

  /** An entry is on at most one of the two lists. */
  lemma OtherList(handles: seq<Handle>, lru: seq<nat>, inUse: seq<nat>, e: nat)
    requires ListFor(handles, lru, OnLru) && ListFor(handles, inUse, InUse) && e < |handles|
    ensures PlaceOf(handles[e]) != OnLru ==> Without(lru, e) == lru
    ensures PlaceOf(handles[e]) != InUse ==> Without(inUse, e) == inUse
  {
    WithoutKeeps(lru, e);
    WithoutKeeps(inUse, e);
  }

  lemma CachedHasRef(handles: seq<Handle>, lru: seq<nat>, inUse: seq<nat>, deleted: seq<nat>, usage: nat, e: nat)
    requires Core(handles, lru, inUse, deleted, usage) && e < |handles| && handles[e].inCache
    ensures handles[e].refs >= 1
  {
  }

  lemma FoundIsCached(contents: map<Name, nat>, handles: seq<Handle>, n: Name)
    requires TableOk(contents, handles, None)
    ensures n in contents ==>
            contents[n] < |handles| && handles[contents[n]].inCache && Named(handles[contents[n]]) == n
  {
  }

  lemma CachedIsFound(contents: map<Name, nat>, handles: seq<Handle>, e: nat)
    requires TableOk(contents, handles, None) && e < |handles| && handles[e].inCache
    ensures Named(handles[e]) in contents && contents[Named(handles[e])] == e
  {
  }

  lemma SameAll(handles: seq<Handle>)
    ensures SameValues(handles, handles)
  {
  }

  lemma ValueAt(contents: map<Name, nat>, handles: seq<Handle>, n: Name)
    requires TableOk(contents, handles, None)
    ensures n in Values(contents, handles) <==> n in contents
    ensures n in contents ==> contents[n] < |handles| && Values(contents, handles)[n] == handles[contents[n]].value
  {
  }

  lemma ValuesGain(contents: map<Name, nat>, handles: seq<Handle>, h: Handle)
    requires TableOk(contents, handles, None)
    ensures Values(contents[Named(h) := |handles|], handles + [h]) == Values(contents, handles)[Named(h) := h.value]
    ensures Values(contents, handles + [h]) == Values(contents, handles)
  {
  }
}
