/** The skip list's own operations, run without interruption (db/skiplist.h). */
module SkipListOps {
  import opened Keys
  import opened SkipLists
  import opened SkipListReaders

  /** A search standing at `x` has passed `k` nodes of its level, all before the target. */
  ghost predicate Passed(m: Mem, list: seq<Node>, x: Node, k: nat, target: Option<int>) {
    k <= |list| && Pred(list, k) == x && forall j :: 0 <= j < k ==> Before(m, list[j], target)
  }

  lemma LoadNext(m: Mem, level: nat, list: seq<Node>, x: Node, k: nat, target: Option<int>)
    requires LevelOk(m, level, list) && Passed(m, list, x, k, target)
    ensures HasLevel(m, x, level) && Load(m, x, level) == Succ(list, k)
    ensures Before(m, Succ(list, k), target) ==> k < |list| && Passed(m, list, list[k], k + 1, target)
    ensures !Before(m, Succ(list, k), target) ==> k == Place(m, list, target)
  {
    assert HasLevel(m, Pred(list, k), level);
    var p := Place(m, list, target);
    if !Before(m, Succ(list, k), target) {
      assert k < |list| ==> Ascending(m, list);
    }
  }

  lemma NodeOrNil(m: Mem, list: seq<Node>, k: nat)
    requires Ascending(m, list) && k <= |list|
    ensures Succ(list, k) != NIL ==> 0 < Succ(list, k) < |m.keys|
  {
  }

  /** A node passed on one level stands in the list of the level below. */
  lemma DropLevel(m: Mem, upper: seq<Node>, lower: seq<Node>, x: Node, k: nat, target: Option<int>) returns (j: nat)
    requires Passed(m, upper, x, k, target) && Ascending(m, lower) && Within(upper, lower)
    ensures Passed(m, lower, x, j, target)
  {
    if k == 0 {
      j := 0;
    } else {
      assert x in upper && Before(m, upper[k - 1], target);
      var i :| 0 <= i < |lower| && lower[i] == x;
      j := i + 1;
      forall n | 0 <= n < j ensures Before(m, lower[n], target) {
        assert n < i ==> m.keys[lower[n]] < m.keys[lower[i]];
      }
    }
  }

  function KeysOf(keys: seq<int>, list: seq<Node>): set<int>
    requires forall n :: n in list ==> n < |keys|
  {
    set n | n in list :: keys[n]
  }

  lemma KeysGrow(keys: seq<int>, list: seq<Node>, key: int, list': seq<Node>)
    requires forall n :: n in list ==> n < |keys|
    requires forall n :: n in list' <==> n == |keys| || n in list
    ensures KeysOf(keys + [key], list') == KeysOf(keys, list) + {key}
  {
    forall c ensures c in KeysOf(keys + [key], list') <==> c in KeysOf(keys, list) + {key} {
      if c in KeysOf(keys, list) {
        var n :| n in list && keys[n] == c;
        assert n in list' && (keys + [key])[n] == c;
      }
      assert |keys| in list' && (keys + [key])[|keys|] == key;
    }
  }

  class SkipList {
    var keys: seq<int>
    var next: seq<seq<Node>>
    var maxHeight: nat
    ghost var lists: seq<seq<Node>>

    ghost function Memory(): Mem
      reads this
    {
      Mem(keys, next, maxHeight)
    }

    ghost predicate Valid()
      reads this
    {
      ListsOk(Memory(), lists)
    }

    /** The keys in the list. */
    ghost function Contents(): (c: set<int>)
      requires Valid()
      reads this
    {
      ListedAreNodes(Memory(), lists);
      KeysOf(keys, lists[0])
    }

    constructor ()
      ensures Valid() && Contents() == {}
    {
      keys, next, maxHeight := [0], [seq(MAX_HEIGHT, _ => NIL)], 1;
      lists := seq(MAX_HEIGHT, _ => []);
      new;
      EmptyIsOk();
    }

    /** The loop shared by FindGreaterOrEqual, FindLessThan and FindLast: the last node before the
        target, the node after it, and the last node before the target on every level. */
    method Find(target: Option<int>) returns (x: Node, after: Node, prev: seq<Node>)
      requires Valid()
      ensures var k := Place(Memory(), lists[0], target); x == Pred(lists[0], k) && after == Succ(lists[0], k)
      ensures |prev| == maxHeight
      ensures forall i :: 0 <= i < maxHeight ==> prev[i] == Pred(lists[i], Place(Memory(), lists[i], target))
    {
      hide Place, Ascending, Linked;
      ghost var m := Memory();
      x := HEAD;
      var level := maxHeight - 1;
      prev := seq(maxHeight, _ => HEAD);
      ghost var k := 0;
      while true
        invariant 0 <= level < maxHeight <= MAX_HEIGHT && |prev| == maxHeight
        invariant Passed(m, lists[level], x, k, target)
        invariant forall i :: level < i < maxHeight ==> prev[i] == Pred(lists[i], Place(m, lists[i], target))
        decreases level, |lists[level]| - k
      {
        assert LevelOk(m, level, lists[level]);
        LoadNext(m, level, lists[level], x, k, target);
        NodeOrNil(m, lists[level], k);
        after := next[x][level];
        if after != NIL && (target.None? || keys[after] < target.value) {
          // Onward on the same level.
          x, k := after, k + 1;
        } else {
          prev := prev[level := x];
          if level == 0 {
            return;
          }
          assert LevelOk(m, level - 1, lists[level - 1]) && Within(lists[level], lists[level - 1]);
          k := DropLevel(m, lists[level], lists[level - 1], x, k, target);
          level := level - 1;
        }
      }
    }

    method FindGreaterOrEqual(key: int) returns (node: Node)
      requires Valid()
      ensures node != NIL ==> node < |keys| && node in lists[0] && keys[node] >= key
      ensures forall c :: c in Contents() && c >= key ==> node != NIL && keys[node] <= c
    {
      var x, after, prev := Find(Some(key));
      AllAround(lists[0], Some(key));
      node := after;
    }

    method FindLessThan(key: int) returns (node: Node)
      requires Valid()
      ensures node != HEAD ==> node < |keys| && node in lists[0] && keys[node] < key
      ensures forall c :: c in Contents() && c < key ==> node != HEAD && c <= keys[node]
    {
      var x, after, prev := Find(Some(key));
      AllAround(lists[0], Some(key));
      node := x;
    }

    method FindLast() returns (node: Node)
      requires Valid()
      ensures node != HEAD ==> node < |keys| && node in lists[0]
      ensures forall c :: c in Contents() ==> node != HEAD && c <= keys[node]
    {
      var x, after, prev := Find(None);
      AllAround(lists[0], None);
      node := x;
    }

    lemma AllAround(list: seq<Node>, target: Option<int>)
      requires Valid() && list == lists[0]
      ensures var k := Place(Memory(), list, target);
              && Around(Memory(), (set n | n in list), Pred(list, k), Succ(list, k), target)
              && (forall n :: n in list ==> 0 < n < |keys|)
              && (k > 0 ==> list[k - 1] in list && Before(Memory(), list[k - 1], target))
              && (k < |list| ==> list[k] in list)
    {
      assert LevelOk(Memory(), 0, list);
      NeighboursAreAround(Memory(), list, Place(Memory(), list, target), target, (set n | n in list));
    }

    method Contains(key: int) returns (found: bool)
      requires Valid()
      ensures found <==> key in Contents()
    {
      var x := FindGreaterOrEqual(key);
      found := x != NIL && keys[x] == key;
    }

    /** Set the new node's link on one level, then publish the node there. */
    method LinkLevel(x: Node, prev: seq<Node>, height: nat, i: nat)
      requires Valid() && WriterOk(Memory(), lists, Linking(x, prev, height, i, false)) && |lists| == MAX_HEIGHT
      modifies this`next, this`lists
      ensures Valid() && |lists| == MAX_HEIGHT && WriterOk(Memory(), lists, AfterLevel(x, prev, height, i))
      ensures if i == 0 then forall n :: n in lists[0] <==> n == x || n in old(lists[0]) else lists[0] == old(lists[0])
    {
      hide ListsOk, WriterOk, WriterReady, WriterStep, ListsStep;
      ghost var w := Linking(x, prev, height, i, false);
      StoreIsSound(Memory(), lists, w);
      StoreIs(Memory(), lists, w);
      next, w := SetNext(next, x, i, next[prev[i]][i]), w.(prepared := true);
      StoreIsSound(Memory(), lists, w);
      StoreIs(Memory(), lists, w);
      ghost var lists' := ListsStep(Memory(), lists, w);
      next := SetNext(next, prev[i], i, x);
      lists := lists';
    }

    /** Insert makes exactly the writer's stores, in order, so every intermediate memory has sorted,
        nested levels. */
    method Insert(key: int, height: nat)
      requires Valid() && key !in Contents() && 1 <= height <= MAX_HEIGHT
      modifies this
      ensures Valid() && Contents() == old(Contents()) + {key}
    {
      hide ListsOk, WriterOk, WriterReady, WriterStep, ListsStep, Place, PrevOk, NewKey, KeysOf;
      ListedAreNodes(Memory(), lists);
      HasLists(Memory(), lists);
      ghost var old0 := lists[0];
      var before, after, found := Find(Some(key));
      // The levels above the old height start at the head.
      var prev := (found + seq(MAX_HEIGHT, _ => HEAD))[..height];
      ghost var w := Found(key, prev, height);
      StartsOk(key, found, prev, height);
      if height > maxHeight {
        StoreIsSound(Memory(), lists, w);
        StoreIs(Memory(), lists, w);
        maxHeight := height;
      }
      StoreIsSound(Memory(), lists, w);
      StoreIs(Memory(), lists, w);
      var x := |keys|;
      keys, next, w := keys + [key], next + [seq(height, _ => NIL)], Linking(x, prev, height, 0, false);
      for i := 0 to height
        invariant Valid() && WriterOk(Memory(), lists, w) && |lists| == MAX_HEIGHT
        invariant w == if i < height then Linking(x, prev, height, i, false) else Idle
        invariant keys == old(keys) + [key] && x == |old(keys)|
        invariant if i == 0 then lists[0] == old0 else forall n :: n in lists[0] <==> n == x || n in old0
      {
        LinkLevel(x, prev, height, i);
        w := AfterLevel(x, prev, height, i);
      }
      ListedAreNodes(Memory(), lists);
      KeysGrow(old(keys), old0, key, lists[0]);
    }

    lemma StartsOk(key: int, found: seq<Node>, prev: seq<Node>, height: nat)
      requires Valid() && key !in Contents() && 1 <= height <= MAX_HEIGHT && |found| == maxHeight
      requires prev == (found + seq(MAX_HEIGHT, _ => HEAD))[..height]
      requires forall i :: 0 <= i < maxHeight ==> found[i] == Pred(lists[i], Place(Memory(), lists[i], Some(key)))
      ensures WriterOk(Memory(), lists, Found(key, prev, height))
    {
      var m := Memory();
      ListedAreNodes(m, lists);
      HasLists(m, lists);
      forall i | 0 <= i < height ensures prev[i] == Pred(lists[i], Place(m, lists[i], Some(key))) {
        assert i >= maxHeight ==> lists[i] == [];
      }
      forall i, n | 0 <= i < |lists| && n in lists[i] ensures m.keys[n] != key {
        OnLowestLevel(m, lists, i, n);
        assert keys[n] in Contents();
      }
    }
  }

  function AfterLevel(x: Node, prev: seq<Node>, height: nat, i: nat): Writer {
    if i + 1 < height then Linking(x, prev, height, i + 1, false) else Idle
  }

  lemma HasLists(m: Mem, lists: seq<seq<Node>>)
    requires ListsOk(m, lists)
    ensures |lists| == MAX_HEIGHT && 1 <= m.maxHeight <= MAX_HEIGHT
  {
  }

  lemma {:induction false} OnLowestLevel(m: Mem, lists: seq<seq<Node>>, i: nat, n: Node)
    requires ListsOk(m, lists) && i < MAX_HEIGHT && n in lists[i]
    ensures n in lists[0]
  {
    if i > 0 {
      assert Within(lists[i], lists[i - 1]);
      OnLowestLevel(m, lists, i - 1, n);
    }
  }

  /** The writer's next store, case by case. */
  lemma StoreIs(m: Mem, lists: seq<seq<Node>>, w: Writer)
    requires WriterReady(m, w) && |lists| == MAX_HEIGHT && (w.Linking? ==> w.level < MAX_HEIGHT && w.x < |m.keys|)
    ensures var (m', w') := WriterStep(m, w); var lists' := ListsStep(m, lists, w);
            match w
            case Found(key, prev, height) =>
              && lists' == lists
              && (height > m.maxHeight ==> m' == Mem(m.keys, m.next, height) && w' == w)
              && (height <= m.maxHeight ==>
                    m' == Mem(m.keys + [key], m.next + [seq(height, _ => NIL)], m.maxHeight) &&
                      w' == Linking(|m.keys|, prev, height, 0, false))
            case Linking(x, prev, height, i, prepared) =>
              && i < |prev| && HasLevel(m, x, i) && HasLevel(m, prev[i], i)
              && (!prepared ==> m' == Mem(m.keys, SetNext(m.next, x, i, m.next[prev[i]][i]), m.maxHeight)
                                && w' == w.(prepared := true) && lists' == lists)
              && (prepared ==> m' == Mem(m.keys, SetNext(m.next, prev[i], i, x), m.maxHeight)
                               && w' == AfterLevel(x, prev, height, i)
                               && |lists'| == MAX_HEIGHT
                               && if i == 0 then forall n :: n in lists'[0] <==>
                                  n == x || n in lists[0] else lists'[0] == lists[0])
  {
  }

  lemma StoreIsSound(m: Mem, lists: seq<seq<Node>>, w: Writer)
    requires ListsOk(m, lists) && WriterOk(m, lists, w) && !w.Idle?
    ensures WriterReady(m, w) && |lists| == MAX_HEIGHT && (w.Linking? ==> w.level < MAX_HEIGHT && w.x < |m.keys|)
    ensures ListsOk(WriterStep(m, w).0, ListsStep(m, lists, w))
    ensures WriterOk(WriterStep(m, w).0, ListsStep(m, lists, w), WriterStep(m, w).1)
  {
    hide ListsOk, WriterReady, WriterStep, ListsStep, Place, PrevOk, NewKey;
    WriterKeepsLists(m, lists, w);
    WriterStaysOk(m, lists, w);
  }
}
