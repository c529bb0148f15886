/** The order in which the cache evicts (util/cache.cc): the LRU list as the calls leave it, and the order of the
    last releases. */
module LruOrder {
  import opened LruCaches

  /** What can happen to a cached entry: a client takes it into use by Lookup, the last client that has it releases it,
      or it leaves the cache. */
  datatype Event = Taken(e: nat) | Returned(e: nat) | Dropped(e: nat)

  /** The LRU list after some events, as Lookup, Release and the ways out of the cache change it. */
  function Unused(events: seq<Event>): seq<nat> {
    if events == [] then [] else
    var before, last := Unused(events[..|events| - 1]), events[|events| - 1];
    Without(before, last.e) + if last.Returned? then [last.e] else []
  }

  /** One more than the position of the last release of the entry. */
  function LastReturn(events: seq<Event>, e: nat): (n: nat)
    ensures n <= |events|
  {
    if events == [] then 0
    else if events[|events| - 1] == Returned(e) then |events|
    else LastReturn(events[..|events| - 1], e)
  }

  ghost predicate ByReturn(events: seq<Event>, list: seq<nat>) {
    && (forall i :: 0 <= i < |list| ==> LastReturn(events, list[i]) > 0)
    && forall i, j :: 0 <= i < j < |list| ==> LastReturn(events, list[i]) < LastReturn(events, list[j])
  }

  lemma {:induction false} WithoutKeepsOrder(events: seq<Event>, list: seq<nat>, e: nat)
    requires ByReturn(events, list)
    ensures ByReturn(events, Without(list, e))
  {
    if list != [] {
      var init := list[..|list| - 1];
      WithoutKeepsOrder(events, init, e);
      WithoutIsBelow(events, init, e, LastReturn(events, list[|list| - 1]));
    }
  }

  lemma WithoutIsBelow(events: seq<Event>, list: seq<nat>, e: nat, bound: nat)
    requires forall i :: 0 <= i < |list| ==> LastReturn(events, list[i]) < bound
    ensures forall i :: 0 <= i < |Without(list, e)| ==> LastReturn(events, Without(list, e)[i]) < bound
  {
    forall i | 0 <= i < |Without(list, e)| ensures LastReturn(events, Without(list, e)[i]) < bound {
      assert Without(list, e)[i] in list;
    }
  }

  /** The list is in the order in which its entries were last released, so that eviction, which takes its first
      entry, takes the least recently used one. */
  lemma {:induction false} OldestComesFirst(events: seq<Event>)
    ensures ByReturn(events, Unused(events))
  {
    if events != [] {
      var init, last := events[..|events| - 1], events[|events| - 1];
      OldestComesFirst(init);
      WithoutKeepsOrder(init, Unused(init), last.e);
      var rest := Without(Unused(init), last.e);
      forall i | 0 <= i < |rest| ensures LastReturn(events, rest[i]) == LastReturn(init, rest[i]) {
        assert rest[i] in rest;
      }
    }
  }

  ghost predicate LastIsReturn(events: seq<Event>, e: nat) {
    var n := LastReturn(events, e);
    n > 0 && forall i :: n <= i < |events| ==> events[i].e != e
  }

  /** An entry is on the list exactly when nothing has happened to it since its last release. */
  lemma {:induction false} UnusedIff(events: seq<Event>, e: nat)
    ensures e in Unused(events) <==> LastIsReturn(events, e)
  {
    if events != [] {
      var init, last := events[..|events| - 1], events[|events| - 1];
      UnusedIff(init, e);
      if last.e != e {
        assert LastReturn(events, e) == LastReturn(init, e);
        assert forall i :: 0 <= i < |init| ==> events[i] == init[i];
      } else if !last.Returned? {
        assert events[|events| - 1].e == e;
      }
    }
  }

  /** Taking an entry off a list leaves the others where they are. */
  lemma {:induction false} WithoutIs(list: seq<nat>, i: nat)
    requires NoRepeats(list) && i < |list|
    ensures Without(list, list[i]) == list[..i] + list[i + 1..]
  {
    var init, last := list[..|list| - 1], list[|list| - 1];
    if i < |init| {
      WithoutIs(init, i);
      assert list[i] == init[i] && last != list[i];
      assert init[..i] + (init[i + 1..] + [last]) == list[..i] + list[i + 1..];
    } else {
      WithoutKeeps(init, last);
      assert list[..i] + list[i + 1..] == init;
    }
  }
}
