/** The memtable's skip list (db/skiplist.h): its links, and every store an insertion makes. */
module SkipLists {
  import opened Keys

  const MAX_HEIGHT: nat := 12

  // Nodes are numbered in order of allocation; node 0 is the head.  No link leads to the
  // head, so links use its number for nullptr.
  type Node = nat
  const HEAD: Node := 0
  const NIL: Node := 0

  /** The nodes allocated so far: the key and the links, one per level, of each. */
  datatype Mem = Mem(keys: seq<int>, next: seq<seq<Node>>, maxHeight: nat)

  ghost predicate WellFormed(m: Mem) {
    && |m.keys| == |m.next| && |m.next| > 0 && |m.next[HEAD]| == MAX_HEIGHT
    && 1 <= m.maxHeight <= MAX_HEIGHT
  }

  predicate HasLevel(m: Mem, x: Node, level: nat) {
    x < |m.next| && level < |m.next[x]|
  }

  function Load(m: Mem, x: Node, level: nat): Node
    requires HasLevel(m, x, level)
  {
    m.next[x][level]
  }

  /** SetNext. */
  function SetNext(next: seq<seq<Node>>, x: Node, level: nat, to: Node): seq<seq<Node>>
    requires x < |next| && level < |next[x]|
  {
    var links: seq<Node> := next[x];
    var changed: seq<Node> := links[level := to];
    next[x := changed]
  }

  function Store(m: Mem, x: Node, level: nat, to: Node): (m': Mem)
    requires HasLevel(m, x, level)
  {
    m.(next := SetNext(m.next, x, level, to))
  }

  function Allocate(m: Mem, key: int, height: nat): Mem {
    m.(keys := m.keys + [key], next := m.next + [seq(height, _ => NIL)])
  }

  // ------------------------------------------------------------------ the list of one level

  function Pred(list: seq<Node>, k: nat): Node
    requires k <= |list|
  {
    if k == 0 then HEAD else list[k - 1]
  }

  function Succ(list: seq<Node>, k: nat): Node
    requires k <= |list|
  {
    if k < |list| then list[k] else NIL
  }

  /** Following the links of `level` from the head visits exactly `list`. */
  ghost predicate Linked(m: Mem, level: nat, list: seq<Node>) {
    forall k :: 0 <= k <= |list| ==>
      HasLevel(m, Pred(list, k), level) && Load(m, Pred(list, k), level) == Succ(list, k)
  }

  ghost predicate Ascending(m: Mem, list: seq<Node>) {
    && (forall k :: 0 <= k < |list| ==> 0 < list[k] < |m.keys|)
    && (forall j, k :: 0 <= j < k < |list| ==> m.keys[list[j]] < m.keys[list[k]])
  }

  ghost predicate LevelOk(m: Mem, level: nat, list: seq<Node>) {
    Linked(m, level, list) && Ascending(m, list)
  }

  ghost predicate Within(upper: seq<Node>, lower: seq<Node>) {
    forall x :: x in upper ==> x in lower
  }

  /** Every level is a sorted list and a sublist of the level below; levels not in use are empty. */
  ghost predicate ListsOk(m: Mem, lists: seq<seq<Node>>) {
    && WellFormed(m) && |lists| == MAX_HEIGHT
    && (forall i :: 0 <= i < MAX_HEIGHT ==> LevelOk(m, i, lists[i]))
    && (forall i :: 0 < i < MAX_HEIGHT ==> Within(lists[i], lists[i - 1]))
    && (forall i :: m.maxHeight <= i < MAX_HEIGHT ==> lists[i] == [])
  }

  /** Node `x` comes before `target`; None is beyond all keys. */
  predicate Before(m: Mem, x: Node, target: Option<int>) {
    0 < x < |m.keys| && (target.None? || m.keys[x] < target.value)
  }

  /** How many nodes of the list come before `target`. */
  function Place(m: Mem, list: seq<Node>, target: Option<int>): (k: nat)
    ensures k <= |list|
    ensures forall j :: 0 <= j < k ==> Before(m, list[j], target)
    ensures k < |list| ==> !Before(m, list[k], target)
  {
    if list == [] || !Before(m, list[0], target) then 0 else 1 + Place(m, list[1..], target)
  }

  lemma PlaceSplits(m: Mem, list: seq<Node>, target: Option<int>)
    requires Ascending(m, list)
    ensures Splits(m, list, Place(m, list, target), target)
  {
    var k := Place(m, list, target);
    forall j | k <= j < |list| ensures !Before(m, list[j], target) {
      assert j > k ==> m.keys[list[k]] < m.keys[list[j]];
    }
  }

  /** The nodes before entry `k` of the list, and no others, come before `target`. */
  ghost predicate Splits(m: Mem, list: seq<Node>, k: nat, target: Option<int>) {
    && k <= |list|
    && (forall j :: 0 <= j < k ==> Before(m, list[j], target))
    && (forall j :: k <= j < |list| ==> !Before(m, list[j], target))
  }

  // ------------------------------------------------------------------ what each store keeps

  function Inserted(list: seq<Node>, k: nat, x: Node): (r: seq<Node>)
    requires k <= |list|
    ensures |r| == |list| + 1
    ensures forall n :: n in r <==> n == x || n in list
  {
    assert list == list[..k] + list[k..];
    list[..k] + [x] + list[k..]
  }

  lemma InsertedLinks(list: seq<Node>, k: nat, x: Node, j: nat)
    requires k <= |list| && j <= |list| + 1
    ensures var r := Inserted(list, k, x);
            && Pred(r, j) == (if j <= k then Pred(list, j) else if j == k + 1 then x else Pred(list, j - 1))
            && Succ(r, j) == (if j < k then Succ(list, j) else if j == k then x else Succ(list, j - 1))
  {
  }

  lemma PredsDiffer(m: Mem, list: seq<Node>, j: nat, k: nat)
    requires Ascending(m, list) && j <= |list| && k <= |list| && j != k
    ensures Pred(list, j) != Pred(list, k)
  {
  }

  /** Publishing a node whose link is already set inserts it into the level's list. */
  lemma PublishInserts(m: Mem, level: nat, list: seq<Node>, k: nat, x: Node)
    requires LevelOk(m, level, list) && 0 < x < |m.keys| && x !in list && Splits(m, list, k, Some(m.keys[x]))
    requires forall n :: n in list ==> m.keys[n] != m.keys[x]
    requires HasLevel(m, x, level) && Load(m, x, level) == Succ(list, k)
    ensures LevelOk(Store(m, Pred(list, k), level, x), level, Inserted(list, k, x))
  {
    var m', r := Store(m, Pred(list, k), level, x), Inserted(list, k, x);
    forall j | 0 <= j <= |r|
      ensures HasLevel(m', Pred(r, j), level) && Load(m', Pred(r, j), level) == Succ(r, j)
    {
      InsertedLinks(list, k, x, j);
      if j < k {
        assert Load(m, Pred(list, j), level) == Succ(list, j);
        PredsDiffer(m, list, j, k);
      } else if j > k + 1 {
        assert Load(m, Pred(list, j - 1), level) == Succ(list, j - 1);
        PredsDiffer(m, list, j - 1, k);
      }
      assert j == k + 1 && k > 0 ==> list[k - 1] in list;
    }
    InsertedAscends(m, list, k, x);
  }

  lemma InsertedAscends(m: Mem, list: seq<Node>, k: nat, x: Node)
    requires Ascending(m, list) && 0 < x < |m.keys| && Splits(m, list, k, Some(m.keys[x]))
    requires forall n :: n in list ==> m.keys[n] != m.keys[x]
    ensures Ascending(m, Inserted(list, k, x))
  {
    forall j | k <= j < |list| ensures m.keys[x] < m.keys[list[j]] {
      assert list[j] in list && !Before(m, list[j], Some(m.keys[x]));
    }
    forall j | 0 <= j < k ensures m.keys[list[j]] < m.keys[x] {
      assert Before(m, list[j], Some(m.keys[x]));
    }
  }

  /** A store to another level, or to a node not in the list, leaves the list alone. */
  lemma StoreElsewhere(m: Mem, x: Node, i: nat, to: Node, level: nat, list: seq<Node>)
    requires HasLevel(m, x, i) && LevelOk(m, level, list)
    requires i != level || (x != HEAD && x !in list)
    ensures LevelOk(Store(m, x, i, to), level, list)
  {
    var m' := Store(m, x, i, to);
    forall k | 0 <= k <= |list|
      ensures HasLevel(m', Pred(list, k), level) && Load(m', Pred(list, k), level) == Succ(list, k)
    {
      assert Load(m, Pred(list, k), level) == Succ(list, k);
    }
  }

  lemma AllocateElsewhere(m: Mem, key: int, height: nat, level: nat, list: seq<Node>)
    requires LevelOk(m, level, list) && |m.keys| == |m.next|
    ensures LevelOk(Allocate(m, key, height), level, list)
  {
    var m' := Allocate(m, key, height);
    forall k | 0 <= k <= |list|
      ensures HasLevel(m', Pred(list, k), level) && Load(m', Pred(list, k), level) == Succ(list, k)
    {
      assert Load(m, Pred(list, k), level) == Succ(list, k);
    }
  }

  // ------------------------------------------------------------------ the writer's steps

  /** Where Insert stands: before the new node exists, or linking it level by level; at each
      level the node's own link is set first. */
  datatype Writer =
    | Idle
    | Found(key: int, prev: seq<Node>, height: nat)
    | Linking(x: Node, prev: seq<Node>, height: nat, level: nat, prepared: bool)

  /** `prev[i]` is the last node before `key` on level `i`: what FindGreaterOrEqual fills in. */
  ghost predicate PrevOk(m: Mem, lists: seq<seq<Node>>, prev: seq<Node>, key: int, from: nat) {
    && |prev| <= |lists|
    && forall i :: from <= i < |prev| ==> prev[i] == Pred(lists[i], Place(m, lists[i], Some(key)))
  }

  /** No node but `x` has the key. */
  ghost predicate NewKey(m: Mem, lists: seq<seq<Node>>, key: int, x: Node) {
    forall i, n :: 0 <= i < |lists| && n in lists[i] && n != x ==> n < |m.keys| && m.keys[n] != key
  }

  ghost predicate WriterOk(m: Mem, lists: seq<seq<Node>>, w: Writer) {
    && |lists| == MAX_HEIGHT
    && match w
       case Idle => true
       case Found(key, prev, height) =>
         && 1 <= height == |prev| <= MAX_HEIGHT
         && PrevOk(m, lists, prev, key, 0) && NewKey(m, lists, key, HEAD)
       case Linking(x, prev, height, level, prepared) =>
         && level < height == |prev| <= m.maxHeight <= MAX_HEIGHT
         && 0 < x < |m.keys| && x < |m.next| && |m.next[x]| == height
         && PrevOk(m, lists, prev, m.keys[x], level) && NewKey(m, lists, m.keys[x], x)
         && (forall i :: 0 <= i < MAX_HEIGHT ==> (x in lists[i] <==> i < level))
         && (prepared ==> HasLevel(m, prev[level], level) && Load(m, x, level) == Load(m, prev[level], level))
  }

  ghost predicate WriterReady(m: Mem, w: Writer) {
    match w
    case Idle => false
    case Found(_, _, _) => true
    case Linking(x, prev, height, level, _) =>
      level < |prev| && HasLevel(m, x, level) && HasLevel(m, prev[level], level)
  }

  /** The next store of a running Insert. */
  ghost function WriterStep(m: Mem, w: Writer): (Mem, Writer)
    requires WriterReady(m, w)
  {
    match w
    case Found(key, prev, height) =>
      if height > m.maxHeight then (m.(maxHeight := height), w)
      else (Allocate(m, key, height), Linking(|m.keys|, prev, height, 0, false))
    case Linking(x, prev, height, level, prepared) =>
      if !prepared then (Store(m, x, level, Load(m, prev[level], level)), w.(prepared := true))
      else (Store(m, prev[level], level, x),
        if level + 1 < height then Linking(x, prev, height, level + 1, false) else Idle)
  }

  /** How the lists change: only publishing a prepared node does. */
  ghost function ListsStep(m: Mem, lists: seq<seq<Node>>, w: Writer): seq<seq<Node>>
    requires WriterReady(m, w) && |lists| == MAX_HEIGHT
    requires w.Linking? ==> w.level < MAX_HEIGHT && w.x < |m.keys|
  {
    if w.Linking? && w.prepared then
      var list := lists[w.level];
      lists[w.level := Inserted(list, Place(m, list, Some(m.keys[w.x])), w.x)]
    else lists
  }

  lemma WriterIsReady(m: Mem, lists: seq<seq<Node>>, w: Writer)
    requires ListsOk(m, lists) && WriterOk(m, lists, w) && !w.Idle?
    ensures WriterReady(m, w)
    ensures w.Linking? ==>
              var list := lists[w.level]; var k := Place(m, list, Some(m.keys[w.x]));
              k <= |list| && w.prev[w.level] == Pred(list, k) && Load(m, w.prev[w.level], w.level) == Succ(list, k)
  {
    if w.Linking? {
      var list := lists[w.level];
      assert LevelOk(m, w.level, list);
      assert HasLevel(m, Pred(list, Place(m, list, Some(m.keys[w.x]))), w.level);
    }
  }

  // ------------------------------------------------------------------ each store keeps the lists

  lemma RaiseKeeps(m: Mem, lists: seq<seq<Node>>, height: nat)
    requires ListsOk(m, lists) && m.maxHeight < height <= MAX_HEIGHT
    ensures ListsOk(m.(maxHeight := height), lists)
  {
    var m' := m.(maxHeight := height);
    forall i | 0 <= i < MAX_HEIGHT ensures LevelOk(m', i, lists[i]) {
      assert LevelOk(m, i, lists[i]);
      SameLinks(m, m', i, lists[i]);
    }
  }

  lemma SameLinks(m: Mem, m': Mem, level: nat, list: seq<Node>)
    requires LevelOk(m, level, list) && m'.keys == m.keys && m'.next == m.next
    ensures LevelOk(m', level, list)
  {
    forall k | 0 <= k <= |list|
      ensures HasLevel(m', Pred(list, k), level) && Load(m', Pred(list, k), level) == Succ(list, k)
    {
      assert Load(m, Pred(list, k), level) == Succ(list, k);
    }
  }

  lemma AllocateKeeps(m: Mem, lists: seq<seq<Node>>, key: int, height: nat)
    requires ListsOk(m, lists)
    ensures ListsOk(Allocate(m, key, height), lists)
  {
    hide LevelOk;
    forall i | 0 <= i < MAX_HEIGHT ensures LevelOk(Allocate(m, key, height), i, lists[i]) {
      AllocateElsewhere(m, key, height, i, lists[i]);
    }
  }

  /** Setting a link of a node that is not yet on that level keeps every list. */
  lemma PrepareKeeps(m: Mem, lists: seq<seq<Node>>, x: Node, level: nat, to: Node)
    requires ListsOk(m, lists) && HasLevel(m, x, level) && x != HEAD && level < MAX_HEIGHT && x !in lists[level]
    ensures ListsOk(Store(m, x, level, to), lists)
  {
    hide LevelOk;
    forall i | 0 <= i < MAX_HEIGHT ensures LevelOk(Store(m, x, level, to), i, lists[i]) {
      StoreElsewhere(m, x, level, to, i, lists[i]);
    }
  }

  lemma PublishKeeps(m: Mem, lists: seq<seq<Node>>, x: Node, level: nat)
    requires ListsOk(m, lists) && level < m.maxHeight && 0 < x < |m.keys| && x !in lists[level] && HasLevel(m, x, level)
    requires NewKey(m, lists, m.keys[x], x) && (level > 0 ==> x in lists[level - 1])
    requires Load(m, x, level) == Succ(lists[level], Place(m, lists[level], Some(m.keys[x])))
    ensures var list := lists[level]; var k := Place(m, list, Some(m.keys[x]));
            && HasLevel(m, Pred(list, k), level)
            && ListsOk(Store(m, Pred(list, k), level, x), lists[level := Inserted(list, k, x)])
  {
    var list := lists[level];
    var k := Place(m, list, Some(m.keys[x]));
    assert LevelOk(m, level, list);
    assert HasLevel(m, Pred(list, k), level);
    PlaceSplits(m, list, Some(m.keys[x]));
    PublishInserts(m, level, list, k, x);
    hide LevelOk, Place, Splits;
    var m', lists' := Store(m, Pred(list, k), level, x), lists[level := Inserted(list, k, x)];
    forall i | 0 <= i < MAX_HEIGHT ensures LevelOk(m', i, lists'[i]) {
      if i != level {
        StoreElsewhere(m, Pred(list, k), level, x, i, lists[i]);
      }
    }
    assert WellFormed(m');
  }

  lemma {:induction false} PlaceIsStable(m: Mem, m': Mem, list: seq<Node>, target: Option<int>)
    requires m.keys <= m'.keys && forall n :: n in list ==> n < |m.keys|
    ensures Place(m', list, target) == Place(m, list, target)
  {
    if list != [] {
      assert list[0] in list && forall n :: n in list[1..] ==> n in list;
      PlaceIsStable(m, m', list[1..], target);
    }
  }

  /** At every store of an insertion each level stays a sorted sublist of the level below. */
  lemma WriterKeepsLists(m: Mem, lists: seq<seq<Node>>, w: Writer)
    requires ListsOk(m, lists) && WriterOk(m, lists, w) && !w.Idle?
    ensures WriterReady(m, w) && ListsOk(WriterStep(m, w).0, ListsStep(m, lists, w))
  {
    WriterIsReady(m, lists, w);
    hide ListsOk, Place;
    if w.Found? {
      if w.height > m.maxHeight {
        RaiseKeeps(m, lists, w.height);
      } else {
        AllocateKeeps(m, lists, w.key, w.height);
      }
    } else if !w.prepared {
      PrepareKeeps(m, lists, w.x, w.level, Load(m, w.prev[w.level], w.level));
    } else {
      PublishKeeps(m, lists, w.x, w.level);
    }
  }

  lemma PrevStays(m: Mem, m': Mem, lists: seq<seq<Node>>, lists': seq<seq<Node>>, prev: seq<Node>, key: int, from: nat,
                  to: nat)
    requires ListsOk(m, lists) && PrevOk(m, lists, prev, key, from) && from <= to && m.keys <= m'.keys
    requires |lists'| == |lists| && forall i :: to <= i < |lists| ==> lists'[i] == lists[i]
    ensures PrevOk(m', lists', prev, key, to)
  {
    hide Place, Linked;
    forall i | to <= i < |prev| ensures prev[i] == Pred(lists'[i], Place(m', lists'[i], Some(key))) {
      assert LevelOk(m, i, lists[i]);
      forall n | n in lists[i] ensures n < |m.keys| {}
      PlaceIsStable(m, m', lists[i], Some(key));
    }
  }

  lemma ListedAreNodes(m: Mem, lists: seq<seq<Node>>)
    requires ListsOk(m, lists)
    ensures forall i, n :: 0 <= i < MAX_HEIGHT && n in lists[i] ==> 0 < n < |m.keys|
  {
    forall i, n | 0 <= i < MAX_HEIGHT && n in lists[i] ensures 0 < n < |m.keys| {
      assert LevelOk(m, i, lists[i]);
    }
  }

  lemma WriterStaysOk(m: Mem, lists: seq<seq<Node>>, w: Writer)
    requires ListsOk(m, lists) && WriterOk(m, lists, w) && WriterReady(m, w)
    ensures var (m', w') := WriterStep(m, w); WriterOk(m', ListsStep(m, lists, w), w')
  {
    hide ListsOk, WriterOk, WriterStep, ListsStep;
    if w.Found? {
      FoundStaysOk(m, lists, w);
    } else {
      LinkingStaysOk(m, lists, w);
    }
  }

  lemma FoundStaysOk(m: Mem, lists: seq<seq<Node>>, w: Writer)
    requires ListsOk(m, lists) && WriterOk(m, lists, w) && w.Found?
    ensures var (m', w') := WriterStep(m, w); WriterOk(m', ListsStep(m, lists, w), w')
  {
    hide ListsOk, Place, PrevOk;
    IsWellFormed(m, lists);
    ListedAreNodes(m, lists);
    var (m', w') := WriterStep(m, w);
    PrevStays(m, m', lists, lists, w.prev, w.key, 0, 0);
  }

  lemma LinkingStaysOk(m: Mem, lists: seq<seq<Node>>, w: Writer)
    requires ListsOk(m, lists) && WriterOk(m, lists, w) && w.Linking?
    ensures WriterReady(m, w)
    ensures var (m', w') := WriterStep(m, w); WriterOk(m', ListsStep(m, lists, w), w')
  {
    hide ListsOk, Place, PrevOk, Inserted;
    ListedAreNodes(m, lists);
    WriterIsReady(m, lists, w);
    var (m', w') := WriterStep(m, w);
    PrevStays(m, m', lists, ListsStep(m, lists, w), w.prev, m.keys[w.x], w.level,
      if w.prepared then w.level + 1 else w.level);
    NewKeyStays(m, lists, w);
  }

  lemma IsWellFormed(m: Mem, lists: seq<seq<Node>>)
    requires ListsOk(m, lists)
    ensures WellFormed(m)
  {
  }

  lemma NewKeyStays(m: Mem, lists: seq<seq<Node>>, w: Writer)
    requires ListsOk(m, lists) && WriterOk(m, lists, w) && w.Linking?
    ensures NewKey(m, ListsStep(m, lists, w), m.keys[w.x], w.x)
    ensures forall i :: 0 <= i < MAX_HEIGHT ==>
              (w.x in ListsStep(m, lists, w)[i] <==> i < if w.prepared then w.level + 1 else w.level)
  {
    WriterIsReady(m, lists, w);
    hide ListsOk, Place, PrevOk;
  }
}
