/** Searches of the skip list that run while an insertion is under way, without locks: every load
    and every store is one step, and the steps interleave in any way (db/skiplist.h).  */
module SkipListReaders {
  import opened Keys
  import opened SkipLists

  /** A search: FindGreaterOrEqual, FindLessThan, or (with no target) FindLast.  The three share
      their loop; the first returns `next`, the others `x`. */
  datatype Search =
    | Searching(target: Option<int>, x: Node, level: nat)
    | Stopped(target: Option<int>, x: Node, next: Node)

  /** One turn of the loop: one load. */
  ghost function SearchStep(m: Mem, r: Search): Search
    requires r.Searching? && HasLevel(m, r.x, r.level)
  {
    var next := Load(m, r.x, r.level);
    if Before(m, next, r.target) then Searching(r.target, next, r.level)
    else if r.level == 0 then Stopped(r.target, r.x, next)
    else Searching(r.target, r.x, r.level - 1)
  }

  /** `x` is the head, or a node on `level` before the target. */
  ghost predicate StandsAt(m: Mem, list: seq<Node>, x: Node, target: Option<int>) {
    x == HEAD || (x in list && Before(m, x, target))
  }

  /** `x` and `next` are neighbours around the target as far as the nodes in `seen` go. */
  ghost predicate Around(m: Mem, seen: set<Node>, x: Node, next: Node, target: Option<int>) {
    && (next < |m.keys| && x < |m.keys| && !Before(m, next, target))
    && (forall n :: n in seen ==> n < |m.keys|)
    && (forall n :: n in seen && Before(m, n, target) ==> x != HEAD && m.keys[n] <= m.keys[x])
    && (forall n :: n in seen && !Before(m, n, target) ==> next != NIL && m.keys[next] <= m.keys[n])
  }

  ghost predicate SearchOk(m: Mem, lists: seq<seq<Node>>, r: Search, seen: set<Node>) {
    && |lists| == MAX_HEIGHT
    && (forall n :: n in seen ==> n in lists[0])
    && match r
       case Searching(target, x, level) => level < MAX_HEIGHT && StandsAt(m, lists[level], x, target)
       case Stopped(target, x, next) =>
         && StandsAt(m, lists[0], x, target) && (next == NIL || next in lists[0])
         && Around(m, seen, x, next, target)
  }

  lemma LoadFromList(m: Mem, level: nat, list: seq<Node>, x: Node, target: Option<int>)
    returns (k: nat)
    requires LevelOk(m, level, list) && StandsAt(m, list, x, target)
    ensures k <= |list| && Pred(list, k) == x && HasLevel(m, x, level) && Load(m, x, level) == Succ(list, k)
  {
    if x == HEAD {
      k := 0;
    } else {
      var j :| 0 <= j < |list| && list[j] == x;
      k := j + 1;
    }
    assert HasLevel(m, Pred(list, k), level);
  }

  /** At the moment of the load, no node lies between the two neighbours. */
  lemma NeighboursAreAround(m: Mem, list: seq<Node>, k: nat, target: Option<int>, seen: set<Node>)
    requires Ascending(m, list) && k <= |list| && (k > 0 ==> Before(m, list[k - 1], target)) && |m.keys| > 0
    requires k < |list| ==> !Before(m, list[k], target)
    requires forall n :: n in seen ==> n in list
    ensures Around(m, seen, Pred(list, k), Succ(list, k), target)
  {
    forall n | n in seen
      ensures n < |m.keys|
      ensures if Before(m, n, target) then k > 0 && m.keys[n] <= m.keys[list[k - 1]]
              else k < |list| && m.keys[list[k]] <= m.keys[n]
    {
      var j :| 0 <= j < |list| && list[j] == n;
    }
  }

  lemma ReadKeepsSearch(m: Mem, lists: seq<seq<Node>>, r: Search, seen: set<Node>)
    requires ListsOk(m, lists) && SearchOk(m, lists, r, seen) && r.Searching?
    ensures HasLevel(m, r.x, r.level) && SearchOk(m, lists, SearchStep(m, r), seen)
  {
    var list := lists[r.level];
    assert LevelOk(m, r.level, list);
    var k := LoadFromList(m, r.level, list, r.x, r.target);
    assert r.level > 0 ==> Within(lists[r.level], lists[r.level - 1]);
    if r.level == 0 && !Before(m, Load(m, r.x, r.level), r.target) {
      NeighboursAreAround(m, list, k, r.target, seen);
    }
  }

  /** Stores leave a running search standing where it was. */
  lemma WriteKeepsSearch(m: Mem, lists: seq<seq<Node>>, m': Mem, lists': seq<seq<Node>>, r: Search, seen: set<Node>)
    requires SearchOk(m, lists, r, seen) && m.keys <= m'.keys && |lists'| == MAX_HEIGHT
    requires forall i, n :: 0 <= i < MAX_HEIGHT && n in lists[i] ==> n in lists'[i]
    requires forall n :: n in lists[0] ==> n < |m.keys|
    ensures SearchOk(m', lists', r, seen)
  {
    if r.Stopped? {
      forall n | n in seen ensures n < |m.keys| && (Before(m, n, r.target) <==> Before(m', n, r.target)) {}
    }
  }

  // ------------------------------------------------------------------ a writer and a reader

  /** `lists` and `seen` are not part of the memory: the list of each level, and the nodes that
      were on level 0 when the search began. */
  datatype World = World(m: Mem, lists: seq<seq<Node>>, w: Writer, r: Search, seen: set<Node>)

  datatype Action =
    | StartInsert(key: int, prev: seq<Node>, height: nat)
    | Write
    | StartSearch(target: Option<int>, level: nat)
    | Read

  /** A search may start at any level: it may see a stale maximum height.  Write and Read also ask
      that the memory they touch exists. */
  ghost predicate Enabled(s: World, a: Action) {
    match a
    case StartInsert(key, prev, height) =>
      s.w.Idle? && 1 <= height == |prev| <= MAX_HEIGHT == |s.lists| && NewKey(s.m, s.lists, key, HEAD) &&
        PrevOk(s.m, s.lists, prev, key, 0)
    case Write =>
      WriterReady(s.m, s.w) && |s.lists| == MAX_HEIGHT &&
        (s.w.Linking? ==> s.w.level < MAX_HEIGHT && s.w.x < |s.m.keys|)
    case StartSearch(_, level) => level < MAX_HEIGHT == |s.lists|
    case Read => s.r.Searching? && HasLevel(s.m, s.r.x, s.r.level)
  }

  ghost predicate WorldOk(s: World) {
    ListsOk(s.m, s.lists) && WriterOk(s.m, s.lists, s.w) && SearchOk(s.m, s.lists, s.r, s.seen)
  }

  ghost function Apply(s: World, a: Action): World
    requires Enabled(s, a)
  {
    match a
    case StartInsert(key, prev, height) => s.(w := Found(key, prev, height))
    case Write =>
      var (m, w) := WriterStep(s.m, s.w);
      s.(m := m, w := w, lists := ListsStep(s.m, s.lists, s.w))
    case StartSearch(target, level) => s.(r := Searching(target, HEAD, level), seen := set n | n in s.lists[0])
    case Read => s.(r := SearchStep(s.m, s.r))
  }

  lemma StepKeepsWorld(s: World, a: Action)
    requires WorldOk(s) && Enabled(s, a)
    ensures WorldOk(Apply(s, a))
  {
    hide ListsOk, Place, PrevOk, NewKey, Around, StandsAt;
    match a
    case StartInsert(_, _, _) =>
    case Write =>
      WriteKeepsWorld(s);
    case StartSearch(target, level) =>
      assert StandsAt(s.m, s.lists[level], HEAD, target) by { HeadStands(s.m, s.lists[level], target); }
    case Read =>
      ReadKeepsSearch(s.m, s.lists, s.r, s.seen);
  }

  lemma HeadStands(m: Mem, list: seq<Node>, target: Option<int>)
    ensures StandsAt(m, list, HEAD, target)
  {
  }

  lemma WriteKeepsWorld(s: World)
    requires WorldOk(s) && Enabled(s, Write)
    ensures WorldOk(Apply(s, Write))
  {
    assert !s.w.Idle?;
    hide ListsOk, WriterOk, SearchOk, WriterReady, WriterStep, ListsStep;
    WriterKeepsLists(s.m, s.lists, s.w);
    WriterStaysOk(s.m, s.lists, s.w);
    WriteGrows(s.m, s.lists, s.w);
    WriteKeepsSearch(s.m, s.lists, WriterStep(s.m, s.w).0, ListsStep(s.m, s.lists, s.w), s.r, s.seen);
  }

  lemma WriteGrows(m: Mem, lists: seq<seq<Node>>, w: Writer)
    requires ListsOk(m, lists) && WriterOk(m, lists, w) && !w.Idle?
    ensures WriterReady(m, w) && m.keys <= WriterStep(m, w).0.keys && |ListsStep(m, lists, w)| == MAX_HEIGHT
    ensures forall i, n :: 0 <= i < MAX_HEIGHT && n in lists[i] ==> n in ListsStep(m, lists, w)[i]
    ensures forall n :: n in lists[0] ==> n < |m.keys|
  {
    WriterIsReady(m, lists, w);
    ListedAreNodes(m, lists);
    hide ListsOk, Place, PrevOk, NewKey;
  }

  /** A running insertion and a running search can always take their next step. */
  lemma NeverStuck(s: World)
    requires WorldOk(s)
    ensures !s.w.Idle? ==> Enabled(s, Write)
    ensures s.r.Searching? ==> Enabled(s, Read)
  {
    if !s.w.Idle? {
      WriterIsReady(s.m, s.lists, s.w);
    }
    if s.r.Searching? {
      ReadKeepsSearch(s.m, s.lists, s.r, s.seen);
    }
  }

  // ------------------------------------------------------------------ whole runs

  function EmptyList(): Mem {
    Mem([0], [seq(MAX_HEIGHT, _ => NIL)], 1)
  }

  ghost predicate IsRun(states: seq<World>, actions: seq<Action>) {
    && |states| == |actions| + 1
    && states[0] == World(EmptyList(), seq(MAX_HEIGHT, _ => []), Idle, Searching(None, HEAD, 0), {})
    && forall i :: 0 <= i < |actions| ==>
         Enabled(states[i], actions[i]) && states[i + 1] == Apply(states[i], actions[i])
  }

  lemma EmptyIsOk()
    ensures WorldOk(World(EmptyList(), seq(MAX_HEIGHT, _ => []), Idle, Searching(None, HEAD, 0), {}))
  {
    var m, lists := EmptyList(), seq(MAX_HEIGHT, _ => []);
    forall i | 0 <= i < MAX_HEIGHT ensures LevelOk(m, i, lists[i]) {}
  }

  lemma {:induction false} RunsKeepWorld(states: seq<World>, actions: seq<Action>, i: nat)
    requires IsRun(states, actions) && i < |states|
    ensures WorldOk(states[i])
  {
    EmptyIsOk();
    if i > 0 {
      RunsKeepWorld(states, actions, i - 1);
      assert Enabled(states[i - 1], actions[i - 1]) && states[i] == Apply(states[i - 1], actions[i - 1]);
      hide WorldOk, Enabled, Apply, EmptyList;
      StepKeepsWorld(states[i - 1], actions[i - 1]);
    }
  }

  /** Whatever the interleaving, a search that has stopped returns a key at or above its target
      (FindGreaterOrEqual) and a key below it (FindLessThan, FindLast), and passes over no node
      that was in the list when the search began. */
  lemma SearchesSkipNothing(states: seq<World>, actions: seq<Action>, i: nat)
    requires IsRun(states, actions) && i < |states| && states[i].r.Stopped?
    ensures states[i].lists != []
    ensures forall n :: n in states[i].lists[0] ==> n < |states[i].m.keys|
    ensures var m, r := states[i].m, states[i].r;
            && (r.next != NIL ==> r.next in states[i].lists[0] && !Before(m, r.next, r.target))
            && (r.x != HEAD ==> r.x in states[i].lists[0] && Before(m, r.x, r.target))
            && forall n :: n in states[i].seen ==>
                 && n in states[i].lists[0]
                 && (Before(m, n, r.target) ==> r.x != HEAD && m.keys[n] <= m.keys[r.x])
                 && (!Before(m, n, r.target) ==> r.next != NIL && m.keys[r.next] <= m.keys[n])
  {
    RunsKeepWorld(states, actions, i);
    ListedAreNodes(states[i].m, states[i].lists);
  }
}
