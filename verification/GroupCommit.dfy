/** Group commit: concurrent writers queue up, and the one at the front logs and applies the
    batches of a whole group (db/db_impl.cc, db/write_batch.cc).  */
module GroupCommit {
  import opened Keys
  import opened WriteBatches

  /** A queued writer; a missing batch only asks for a memtable switch.  `size` is its ByteSize. */
  datatype Request = Request(batch: Option<seq<Op>>, size: nat, sync: bool)

  // ------------------------------------------------------------------ BuildBatchGroup

  function Batch(r: Request): seq<Op> {
    if r.batch.Some? then r.batch.value else []
  }

  /** The batches of a group, appended in queue order. */
  function Joined(rs: seq<Request>): seq<Op> {
    if rs == [] then [] else Joined(rs[..|rs| - 1]) + Batch(rs[|rs| - 1])
  }

  function Bytes(rs: seq<Request>): nat {
    if rs == [] then 0 else Bytes(rs[..|rs| - 1]) + if rs[|rs| - 1].batch.Some? then rs[|rs| - 1].size else 0
  }

  /** The size limit of a group: small writes are not to be delayed much. */
  function MaxSize(first: Request): nat {
    if first.size <= 131072 then first.size + 131072 else 1048576
  }

  /** The writer may join the group led by `first` that already holds `size` bytes. */
  predicate MayJoin(first: Request, size: nat, r: Request) {
    (r.sync ==> first.sync) && (r.batch.Some? ==> size + r.size <= MaxSize(first))
  }

  /** `n` is the length of the longest group that the front of the queue can lead. */
  ghost predicate IsGroup(queue: seq<Request>, n: nat) {
    && 1 <= n <= |queue|
    && (forall i :: 1 <= i < n ==> MayJoin(queue[0], Bytes(queue[..i]), queue[i]))
    && (n < |queue| ==> !MayJoin(queue[0], Bytes(queue[..n]), queue[n]))
  }

  /** The limits of a group, spelled out: a megabyte, or 128 KB above the leader's batch if that is no larger than
      128 KB; and a group ends only at a request that asks for a sync its leader does not make, or that is too much. */
  lemma GroupLimits(queue: seq<Request>, n: nat)
    requires IsGroup(queue, n)
    ensures var limit := if queue[0].size <= 131072 then queue[0].size + 131072 else 1048576;
            && (forall i :: 1 <= i < n && queue[i].batch.Some? ==> Bytes(queue[..i + 1]) <= limit)
            && (forall i :: 1 <= i < n && queue[i].sync ==> queue[0].sync)
            && (n < |queue| ==> (queue[n].sync && !queue[0].sync) ||
                                (queue[n].batch.Some? && Bytes(queue[..n + 1]) > limit))
  {
    hide Bytes;
    forall i | 1 <= i < |queue|
      ensures Bytes(queue[..i + 1]) == Bytes(queue[..i]) + if queue[i].batch.Some? then queue[i].size else 0
    {
      PrefixGrows(queue, i);
    }
    forall i | 1 <= i < n
      ensures queue[i].batch.Some? ==> Bytes(queue[..i]) + queue[i].size <= MaxSize(queue[0])
      ensures queue[i].sync ==> queue[0].sync
    {
      assert MayJoin(queue[0], Bytes(queue[..i]), queue[i]);
    }
  }

  lemma FirstAlone(queue: seq<Request>)
    requires queue != [] && queue[0].batch.Some?
    ensures Joined(queue[..1]) == queue[0].batch.value && Bytes(queue[..1]) == queue[0].size
  {
    assert queue[..1][..0] == [];
  }

  lemma PrefixGrows(queue: seq<Request>, n: nat)
    requires n < |queue|
    ensures Joined(queue[..n + 1]) == Joined(queue[..n]) + Batch(queue[n])
    ensures Bytes(queue[..n + 1]) == Bytes(queue[..n]) + if queue[n].batch.Some? then queue[n].size else 0
  {
    assert queue[..n + 1][..n] == queue[..n];
  }

  method BuildBatchGroup(queue: seq<Request>) returns (n: nat, result: seq<Op>)
    requires queue != [] && queue[0].batch.Some?
    ensures IsGroup(queue, n) && result == Joined(queue[..n])
  {
    hide Joined, Bytes;
    FirstAlone(queue);
    var first := queue[0];
    result := first.batch.value;
    var size := first.size;
    var maxSize := 1048576;
    if size <= 131072 {
      maxSize := size + 131072;
    }
    n := 1;
    while n < |queue|
      invariant 1 <= n <= |queue| && size == Bytes(queue[..n]) && result == Joined(queue[..n])
      invariant forall i :: 1 <= i < n ==> MayJoin(first, Bytes(queue[..i]), queue[i])
    {
      var w := queue[n];
      PrefixGrows(queue, n);
      if w.sync && !first.sync {
        // What must reach the disk needs a leader that syncs.
        break;
      }
      if w.batch.Some? {
        if size + w.size > maxSize {
          // The group has reached its limit.
          break;
        }
        size := size + w.size;
        result := result + w.batch.value;
      }
      n := n + 1;
    }
  }

  // ------------------------------------------------------------------ the state machine

  /** One record of the log file: the batch of a group, and its first sequence number. */
  datatype Record = Record(first: nat, ops: seq<Op>)

  /** What a finished writer was given: the first sequence number of its batch, the log record
      holding it, and its status. */
  datatype Ack = Ack(req: Request, start: nat, record: nat, ok: bool)

  datatype Stage = ToLog | ToSync | ToApply | ToFinish

  /** The leader's work: the group is the first `n` writers of the queue. */
  datatype Phase = Free | Leading(n: nat, ops: seq<Op>, applied: nat, ok: bool, stage: Stage)

  /** `acks` and `arrivals` are histories: writers in the order they finished and arrived. */
  datatype State = State(queue: seq<Request>, phase: Phase, last: nat, log: seq<Record>, synced: nat,
                         mem: seq<Entry>, error: bool, acks: seq<Ack>, arrivals: seq<Request>)

  datatype Action =
    | Arrive(r: Request)
    | Lead(room: bool, n: nat)
    | Append(ok: bool, landed: bool)
    | Sync(ok: bool)
    | ApplyOp
    | Finish

  function Initial(): State {
    State([], Free, 0, [], 0, [], false, [], [])
  }

  function Acks(rs: seq<Request>, start: nat, record: nat, ok: bool): (a: seq<Ack>)
    ensures |a| == |rs|
  {
    if rs == [] then [] else
    var n := |rs| - 1;
    Acks(rs[..n], start, record, ok) + [Ack(rs[n], start + |Joined(rs[..n])|, record, ok)]
  }

  function LastRecord(log: seq<Record>): nat {
    if log == [] then 0 else |log| - 1
  }

  ghost predicate Enabled(d: State, a: Action) {
    match a
    case Arrive(_) => true
    // MakeRoomForWrite yields a recorded background error; it may also fail by itself.
    case Lead(room, n) =>
      && d.phase.Free? && d.queue != [] && (room ==> !d.error)
      && if room && d.queue[0].batch.Some? then IsGroup(d.queue, n) else n == 1
    case Append(ok, landed) => d.phase.Leading? && d.phase.stage.ToLog? && (ok ==> landed)
    case Sync(_) => d.phase.Leading? && d.phase.stage.ToSync?
    case ApplyOp => d.phase.Leading? && d.phase.stage.ToApply? && d.phase.applied < |d.phase.ops|
    case Finish =>
      && d.phase.Leading? && d.phase.n <= |d.queue|
      && (d.phase.stage.ToFinish? || (d.phase.stage.ToApply? && d.phase.applied == |d.phase.ops|))
  }

  ghost function Apply(d: State, a: Action): State
    requires Enabled(d, a)
  {
    match a
    case Arrive(r) => d.(queue := d.queue + [r], arrivals := d.arrivals + [r])
    case Lead(room, n) =>
      if room && d.queue[0].batch.Some?
      then d.(phase := Leading(n, Joined(d.queue[..n]), 0, true, ToLog))
      else d.(phase := Leading(n, [], 0, room, ToFinish))
    case Append(ok, landed) =>
      var p := d.phase;
      var stage := if !ok then ToFinish else if d.queue != [] && d.queue[0].sync then ToSync else ToApply;
      d.(log := if landed then d.log + [Record(d.last + 1, p.ops)] else d.log, phase := p.(ok := ok, stage := stage))
    case Sync(ok) =>
      if ok then d.(synced := |d.log|, phase := d.phase.(stage := ToApply))
      else d.(error := true, phase := d.phase.(ok := false, stage := ToFinish))
    case ApplyOp =>
      var p := d.phase;
      d.(mem := d.mem + [EntryOf(p.ops[p.applied], d.last + 1 + p.applied)], phase := p.(applied := p.applied + 1))
    case Finish =>
      var p := d.phase;
      d.(last := d.last + |p.ops|, phase := Free, queue := d.queue[p.n..],
         acks := d.acks + Acks(d.queue[..p.n], d.last + 1, LastRecord(d.log), p.ok))
  }

  // ------------------------------------------------------------------ what the histories mean

  /** The entries of all writers acknowledged with success, in the order of the acknowledgements. */
  function Applied(acks: seq<Ack>): seq<Entry> {
    if acks == [] then [] else
    var a := acks[|acks| - 1];
    Applied(acks[..|acks| - 1]) + if a.ok then Numbered(a.start, Batch(a.req)) else []
  }

  function Requests(acks: seq<Ack>): seq<Request> {
    seq(|acks|, i requires 0 <= i < |acks| => acks[i].req)
  }

  /** The writer's batch lies in its log record, at its sequence numbers. */
  ghost predicate InLog(log: seq<Record>, a: Ack) {
    && a.record < |log|
    && var r := log[a.record];
       && r.first <= a.start && a.start - r.first + |Batch(a.req)| <= |r.ops|
       && r.ops[a.start - r.first..a.start - r.first + |Batch(a.req)|] == Batch(a.req)
  }

  ghost predicate AckOk(a: Ack, log: seq<Record>, synced: nat, last: nat) {
    && a.start <= last + 1
    && (a.ok && a.req.batch.Some? ==>
          InLog(log, a) && a.start + |Batch(a.req)| <= last + 1 && (a.req.sync ==> a.record < synced))
  }

  ghost predicate AcksOk(acks: seq<Ack>, log: seq<Record>, synced: nat, last: nat) {
    && (forall i :: 0 <= i < |acks| ==> AckOk(acks[i], log, synced, last))
    && (forall i, j :: 0 <= i < j < |acks| ==> End(acks[i]) <= acks[j].start)
  }

  /** The sequence number after the writer's range; a failed writer is given none of its own. */
  function End(a: Ack): nat {
    a.start + if a.ok then |Batch(a.req)| else 0
  }

  /** No sequence number is used twice in the log. */
  ghost predicate LogAscends(log: seq<Record>, bound: nat) {
    && (forall i :: 0 <= i < |log| ==> log[i].first + |log[i].ops| <= bound)
    && (forall i, j :: 0 <= i < j < |log| ==> log[i].first + |log[i].ops| <= log[j].first)
  }

  /** No writer asking for a sync is in a group whose leader does not. */
  ghost predicate SyncsCovered(group: seq<Request>) {
    group != [] && (!group[0].sync ==> forall r :: r in group ==> !r.sync)
  }

  ghost predicate Landed(d: State) {
    d.phase.Leading? && d.log != [] && d.log[|d.log| - 1] == Record(d.last + 1, d.phase.ops)
  }

  ghost predicate PhaseOk(d: State) {
    d.phase.Leading? ==>
      var p := d.phase;
      && 1 <= p.n <= |d.queue| && p.applied <= |p.ops|
      && (p.ops == Joined(d.queue[..p.n]) || (p.ops == [] && p.n == 1))
      && (!p.ok ==> p.stage.ToFinish? && p.applied == 0)
      && (p.stage.ToLog? ==> p.applied == 0)
      && (if p.ok && d.queue[0].batch.Some?
          then p.ops == Joined(d.queue[..p.n]) && SyncsCovered(d.queue[..p.n]) && !p.stage.ToFinish?
               && (!p.stage.ToLog? ==> Landed(d))
               && (p.stage.ToApply? && d.queue[0].sync ==> d.synced == |d.log|)
               && (p.stage.ToSync? ==> p.applied == 0)
          else p.stage.ToFinish? && p.applied == 0 && (p.ok ==> p.ops == [] && p.n == 1))
  }

  function InFlight(d: State): seq<Entry> {
    if d.phase.Leading? && d.phase.applied <= |d.phase.ops| then Numbered(d.last + 1, d.phase.ops[..d.phase.applied])
      else []
  }

  ghost predicate Inv(d: State) {
    && PhaseOk(d) && d.synced <= |d.log|
    && AcksOk(d.acks, d.log, d.synced, d.last)
    && LogAscends(d.log, if d.phase.Leading? then d.last + 1 + |d.phase.ops| else d.last + 1)
    && (d.phase.Leading? && d.phase.stage.ToLog? ==> LogAscends(d.log, d.last + 1))
    && d.mem == Applied(d.acks) + InFlight(d)
    && d.arrivals == Requests(d.acks) + d.queue
  }

  // ------------------------------------------------------------------ groups

  lemma {:induction false} GroupCoversSyncs(queue: seq<Request>, n: nat)
    requires IsGroup(queue, n)
    ensures SyncsCovered(queue[..n])
  {
    if !queue[0].sync {
      forall r | r in queue[..n] ensures !r.sync {
        var i :| 0 <= i < n && queue[i] == r;
        assert i > 0 ==> MayJoin(queue[0], Bytes(queue[..i]), queue[i]);
      }
    }
  }

  lemma {:induction false} JoinedPart(rs: seq<Request>, i: nat)
    requires i < |rs|
    ensures |Joined(rs[..i])| + |Batch(rs[i])| <= |Joined(rs)|
    ensures Joined(rs)[|Joined(rs[..i])|..|Joined(rs[..i])| + |Batch(rs[i])|] == Batch(rs[i])
  {
    hide Joined, Batch;
    var n := |rs| - 1;
    JoinedUnfolds(rs);
    if i == n {
      EndPart(Joined(rs[..n]), Batch(rs[n]));
    } else {
      JoinedPart(rs[..n], i);
      assert rs[..n][..i] == rs[..i];
      InnerPart(Joined(rs[..n]), Batch(rs[n]), |Joined(rs[..i])|, |Joined(rs[..i])| + |Batch(rs[i])|);
    }
  }

  lemma JoinedUnfolds(rs: seq<Request>)
    requires rs != []
    ensures Joined(rs) == Joined(rs[..|rs| - 1]) + Batch(rs[|rs| - 1])
  {
    hide Batch;
  }

  lemma EndPart<T>(a: seq<T>, b: seq<T>)
    ensures (a + b)[|a|..|a| + |b|] == b
  {
  }

  lemma InnerPart<T>(a: seq<T>, b: seq<T>, lo: nat, hi: nat)
    requires lo <= hi <= |a|
    ensures (a + b)[lo..hi] == a[lo..hi]
  {
  }

  lemma {:induction false} AcksAre(rs: seq<Request>, start: nat, record: nat, ok: bool, i: nat)
    requires i < |rs|
    ensures Acks(rs, start, record, ok)[i] == Ack(rs[i], start + |Joined(rs[..i])|, record, ok)
  {
    var n := |rs| - 1;
    if i < n {
      AcksAre(rs[..n], start, record, ok, i);
      assert rs[..n][..i] == rs[..i];
    }
  }

  lemma GroupUnfolds(rs: seq<Request>, start: nat, record: nat, ok: bool)
    requires rs != []
    ensures var n := |rs| - 1;
            && Joined(rs) == Joined(rs[..n]) + Batch(rs[n])
            && Acks(rs, start, record, ok) ==
               Acks(rs[..n], start, record, ok) + [Ack(rs[n], start + |Joined(rs[..n])|, record, ok)]
  {
  }

  lemma AppliedLast(acks: seq<Ack>, rs: seq<Request>, start: nat, record: nat, ok: bool)
    requires rs != []
    ensures var n := |rs| - 1;
            Applied(acks + Acks(rs, start, record, ok)) ==
            Applied(acks + Acks(rs[..n], start, record, ok))
            + if ok then Numbered(start + |Joined(rs[..n])|, Batch(rs[n])) else []
  {
    hide *;
    var n := |rs| - 1;
    var init, last := Acks(rs[..n], start, record, ok), Ack(rs[n], start + |Joined(rs[..n])|, record, ok);
    GroupUnfolds(rs, start, record, ok);
    Regroup(acks, init, [last]);
    AppliedAppends(acks + init, last);
  }

  lemma EmptyGroup(acks: seq<Ack>, start: nat, record: nat)
    ensures Applied(acks + Acks([], start, record, true)) == Applied(acks) + Numbered(start, Joined([]))
  {
    hide Applied, Numbered;
    assert acks + [] == acks;
    NothingNumbered(start);
  }

  lemma {:induction false} AppliedGroup(acks: seq<Ack>, rs: seq<Request>, start: nat, record: nat)
    ensures Applied(acks + Acks(rs, start, record, true)) == Applied(acks) + Numbered(start, Joined(rs))
  {
    hide *;
    if rs == [] {
      EmptyGroup(acks, start, record);
    } else {
      var n := |rs| - 1;
      var last := start + |Joined(rs[..n])|;
      AppliedLast(acks, rs, start, record, true);
      AppliedGroup(acks, rs[..n], start, record);
      calc {
        Applied(acks + Acks(rs, start, record, true));
        (Applied(acks) + Numbered(start, Joined(rs[..n]))) + Numbered(last, Batch(rs[n]));
        { Regroup(Applied(acks), Numbered(start, Joined(rs[..n])), Numbered(last, Batch(rs[n]))); }
        Applied(acks) + (Numbered(start, Joined(rs[..n])) + Numbered(last, Batch(rs[n])));
        { NumberedConcat(start, Joined(rs[..n]), Batch(rs[n])); }
        Applied(acks) + Numbered(start, Joined(rs[..n]) + Batch(rs[n]));
        { GroupUnfolds(rs, start, record, true); }
        Applied(acks) + Numbered(start, Joined(rs));
      }
    }
  }

  /** A group that failed applied nothing. */
  lemma {:induction false} FailedGroup(acks: seq<Ack>, rs: seq<Request>, start: nat, record: nat)
    ensures Applied(acks + Acks(rs, start, record, false)) == Applied(acks)
  {
    if rs == [] {
      assert acks + [] == acks;
    } else {
      hide *;
      AppliedLast(acks, rs, start, record, false);
      FailedGroup(acks, rs[..|rs| - 1], start, record);
      Regroup(Applied(acks), [], []);
    }
  }

  lemma Regroup<T>(a: seq<T>, b: seq<T>, c: seq<T>)
    ensures (a + b) + c == a + (b + c)
    ensures a + [] == a
  {
  }

  lemma AppliedAppends(acks: seq<Ack>, a: Ack)
    ensures Applied(acks + [a]) == Applied(acks) + if a.ok then Numbered(a.start, Batch(a.req)) else []
  {
    hide Numbered;
    assert (acks + [a])[..|acks|] == acks;
  }

  // ------------------------------------------------------------------ every step keeps the invariant

  lemma ArriveKeeps(d: State, r: Request)
    requires Inv(d)
    ensures Inv(Apply(d, Arrive(r)))
  {
    hide AcksOk, LogAscends, Joined, Applied, InFlight, SyncsCovered;
    var d' := Apply(d, Arrive(r));
    SameInFlight(d, d');
    assert d.phase.Leading? ==> d'.queue[..d.phase.n] == d.queue[..d.phase.n];
    assert d'.arrivals == Requests(d'.acks) + d'.queue;
  }

  lemma SameInFlight(d: State, d': State)
    requires d'.phase == d.phase && d'.last == d.last
    ensures InFlight(d') == InFlight(d)
  {
  }

  lemma LeadKeeps(d: State, room: bool, n: nat)
    requires Inv(d) && Enabled(d, Lead(room, n))
    ensures Inv(Apply(d, Lead(room, n)))
  {
    hide AcksOk, LogAscends, Joined, Applied, IsGroup;
    if room && d.queue[0].batch.Some? {
      GroupCoversSyncs(d.queue, n);
      GroupFits(d.queue, n);
    }
    LogAscendsMore(d.log, d.last + 1, Apply(d, Lead(room, n)).last + 1 + |Apply(d, Lead(room, n)).phase.ops|);
    Regroup(Applied(d.acks), [], []);
  }

  lemma GroupFits(queue: seq<Request>, n: nat)
    requires IsGroup(queue, n)
    ensures 1 <= n <= |queue|
  {
  }

  lemma LogAscendsMore(log: seq<Record>, bound: nat, more: nat)
    requires LogAscends(log, bound) && bound <= more
    ensures LogAscends(log, more)
  {
  }

  lemma AckStays(a: Ack, log: seq<Record>, log': seq<Record>, synced: nat, synced': nat, last: nat)
    requires AckOk(a, log, synced, last) && log <= log' && synced <= synced'
    ensures AckOk(a, log', synced', last)
  {
    if a.ok && a.req.batch.Some? {
      assert log'[a.record] == log[a.record];
    }
  }

  lemma AcksStay(acks: seq<Ack>, log: seq<Record>, log': seq<Record>, synced: nat, synced': nat, last: nat)
    requires AcksOk(acks, log, synced, last) && log <= log' && synced <= synced'
    ensures AcksOk(acks, log', synced', last)
  {
    hide AckOk;
    forall i | 0 <= i < |acks| ensures AckOk(acks[i], log', synced', last) {
      AckStays(acks[i], log, log', synced, synced', last);
    }
  }

  lemma AppendKeeps(d: State, ok: bool, landed: bool)
    requires Inv(d) && Enabled(d, Append(ok, landed))
    ensures Inv(Apply(d, Append(ok, landed)))
  {
    hide AckOk, AcksOk, Joined, Applied, SyncsCovered;
    var d' := Apply(d, Append(ok, landed));
    AcksStay(d.acks, d.log, d'.log, d.synced, d'.synced, d.last);
    assert d'.phase.ops == d.phase.ops && InFlight(d') == InFlight(d);
  }

  lemma SyncKeeps(d: State, ok: bool)
    requires Inv(d) && Enabled(d, Sync(ok))
    ensures Inv(Apply(d, Sync(ok)))
  {
    hide AckOk, AcksOk, Joined, Applied, SyncsCovered, LogAscends;
    var d' := Apply(d, Sync(ok));
    AcksStay(d.acks, d.log, d'.log, d.synced, d'.synced, d.last);
    assert InFlight(d') == InFlight(d);
  }

  lemma ApplyOpKeeps(d: State)
    requires Inv(d) && Enabled(d, ApplyOp)
    ensures Inv(Apply(d, ApplyOp))
  {
    hide AcksOk, Joined, Applied, SyncsCovered, LogAscends;
    var d' := Apply(d, ApplyOp);
    var p := d.phase;
    assert InFlight(d') == InFlight(d) + [EntryOf(p.ops[p.applied], d.last + 1 + p.applied)];
    Regroup(Applied(d.acks), InFlight(d), [EntryOf(p.ops[p.applied], d.last + 1 + p.applied)]);
  }

  /** The acknowledgements of a finished group are as they should be. */
  lemma GroupAcksOk(d: State, i: nat)
    requires Inv(d) && Enabled(d, Finish) && i < d.phase.n
    ensures var p := d.phase; var group := d.queue[..p.n];
            var a := Acks(group, d.last + 1, LastRecord(d.log), p.ok)[i];
            && AckOk(a, d.log, d.synced, d.last + |p.ops|) && a.start == d.last + 1 + |Joined(group[..i])|
            && a.req == d.queue[i]
            && (i + 1 < p.n ==> End(a) <= d.last + 1 + |Joined(group[..i + 1])|)
  {
    hide AcksOk, LogAscends, Applied, InFlight, Numbered, Requests, Joined, Acks, SyncsCovered, AckOk;
    var p := d.phase;
    var group := d.queue[..p.n];
    AcksAre(group, d.last + 1, LastRecord(d.log), p.ok, i);
    JoinedStep(group, i);
    GroupAckOk(d, i);
    if p.n == 1 { NothingJoined(group); }
  }

  lemma NothingJoined(rs: seq<Request>)
    ensures Joined(rs[..0]) == []
  {
  }

  lemma GroupAckOk(d: State, i: nat)
    requires Inv(d) && Enabled(d, Finish) && i < d.phase.n
    ensures var p := d.phase; var group := d.queue[..p.n];
            AckOk(Ack(group[i], d.last + 1 + |Joined(group[..i])|, LastRecord(d.log), p.ok), d.log, d.synced,
              d.last + |p.ops|)
  {
    hide AcksOk, LogAscends, Applied, InFlight, Numbered, Requests, Joined, Acks;
    var p := d.phase;
    var group := d.queue[..p.n];
    NothingJoined(group);
    JoinedPart(group, i);
    GroupSyncs(d, i);
  }

  lemma GroupSyncs(d: State, i: nat)
    requires PhaseOk(d) && Enabled(d, Finish) && i < d.phase.n
    ensures d.phase.ok && d.queue[0].batch.Some? && d.queue[i].sync ==> d.queue[0].sync
  {
    hide Joined;
    assert d.queue[..d.phase.n][i] in d.queue[..d.phase.n];
  }

  lemma JoinedStep(rs: seq<Request>, i: nat)
    requires i < |rs|
    ensures |Joined(rs[..i + 1])| == |Joined(rs[..i])| + |Batch(rs[i])|
  {
    assert rs[..i + 1][..i] == rs[..i];
  }

  lemma AcksJoin(acks: seq<Ack>, more: seq<Ack>, log: seq<Record>, synced: nat, last: nat, last': nat)
    requires AcksOk(acks, log, synced, last) && last <= last'
    requires forall i :: 0 <= i < |more| ==> AckOk(more[i], log, synced, last') && last + 1 <= more[i].start
    requires forall i, j :: 0 <= i < j < |more| ==> End(more[i]) <= more[j].start
    ensures AcksOk(acks + more, log, synced, last')
  {
    var all := acks + more;
    forall i | 0 <= i < |all| ensures AckOk(all[i], log, synced, last') {
      if i < |acks| {
        assert AckOk(acks[i], log, synced, last);
      } else {
        assert AckOk(more[i - |acks|], log, synced, last');
      }
    }
    forall i, j | 0 <= i < j < |all| ensures End(all[i]) <= all[j].start {
      if j < |acks| {
        assert End(acks[i]) <= acks[j].start;
      } else if i < |acks| {
        assert AckOk(acks[i], log, synced, last);
        assert last + 1 <= more[j - |acks|].start;
      } else {
        assert End(more[i - |acks|]) <= more[j - |acks|].start;
      }
    }
  }

  lemma FinishKeepsAcks(d: State)
    requires Inv(d) && Enabled(d, Finish)
    ensures AcksOk(Apply(d, Finish).acks, d.log, d.synced, Apply(d, Finish).last)
  {
    hide AcksOk, AckOk, LogAscends, Applied, InFlight, Numbered, Joined, Acks, Batch, End;
    var p := d.phase;
    var group := d.queue[..p.n];
    var more := Acks(group, d.last + 1, LastRecord(d.log), p.ok);
    forall i | 0 <= i < |more|
      ensures AckOk(more[i], d.log, d.synced, d.last + |p.ops|) && d.last + 1 <= more[i].start
    {
      GroupAcksOk(d, i);
    }
    forall i, j | 0 <= i < j < |more| ensures End(more[i]) <= more[j].start {
      GroupAcksOk(d, i);
      GroupAcksOk(d, j);
      JoinedOrdered(group, i + 1, j);
    }
    AcksJoin(d.acks, more, d.log, d.synced, d.last, d.last + |p.ops|);
  }

  lemma {:induction false} JoinedOrdered(rs: seq<Request>, i: nat, j: nat)
    requires i <= j <= |rs|
    ensures |Joined(rs[..i])| <= |Joined(rs[..j])|
  {
    if i < j {
      JoinedOrdered(rs, i, j - 1);
      JoinedStep(rs, j - 1);
    }
  }

  lemma FinishKeepsMem(d: State)
    requires Inv(d) && Enabled(d, Finish)
    ensures d.mem == Applied(Apply(d, Finish).acks)
  {
    hide AcksOk, LogAscends, Applied, Acks, Numbered, InFlight, PhaseOk, Requests, Joined;
    var p := d.phase;
    var group := d.queue[..p.n];
    if p.ok {
      AppliedGroup(d.acks, group, d.last + 1, LastRecord(d.log));
      WholeGroupApplied(d);
    } else {
      FailedGroup(d.acks, group, d.last + 1, LastRecord(d.log));
      NothingInFlight(d);
      Regroup(Applied(d.acks), [], []);
    }
  }

  lemma NothingInFlight(d: State)
    requires PhaseOk(d) && d.phase.Leading? && !d.phase.ok
    ensures InFlight(d) == []
  {
  }

  lemma WholeGroupApplied(d: State)
    requires PhaseOk(d) && Enabled(d, Finish) && d.phase.ok
    ensures InFlight(d) == Numbered(d.last + 1, Joined(d.queue[..d.phase.n]))
  {
    var p := d.phase;
    hide Numbered;
    if d.queue[0].batch.Some? {
      assert p.ops[..p.applied] == p.ops;
    } else {
      assert d.queue[..1][..0] == [];
      assert p.ops[..p.applied] == [];
    }
  }

  lemma FinishKeeps(d: State)
    requires Inv(d) && Enabled(d, Finish)
    ensures Inv(Apply(d, Finish))
  {
    FinishKeepsAcks(d);
    FinishKeepsMem(d);
    FinishKeepsArrivals(d);
    hide AcksOk, LogAscends, Applied, Acks, Joined, SyncsCovered, Requests;
    var d' := Apply(d, Finish);
    assert InFlight(d') == [];
    Regroup(Applied(d'.acks), [], []);
  }

  lemma RequestsOfAcks(acks: seq<Ack>, rs: seq<Request>, start: nat, record: nat, ok: bool)
    ensures Requests(acks + Acks(rs, start, record, ok)) == Requests(acks) + rs
  {
    forall i | 0 <= i < |rs| ensures Acks(rs, start, record, ok)[i].req == rs[i] {
      AcksAre(rs, start, record, ok, i);
    }
    hide Acks;
  }

  lemma FinishKeepsArrivals(d: State)
    requires Inv(d) && Enabled(d, Finish)
    ensures d.arrivals == Requests(Apply(d, Finish).acks) + Apply(d, Finish).queue
  {
    hide AcksOk, LogAscends, Applied, Acks, Joined, PhaseOk, InFlight, Requests;
    var p := d.phase;
    var group := d.queue[..p.n];
    RequestsOfAcks(d.acks, group, d.last + 1, LastRecord(d.log), p.ok);
    assert group + d.queue[p.n..] == d.queue;
    Regroup(Requests(d.acks), group, d.queue[p.n..]);
  }

  lemma StepKeepsInv(d: State, a: Action)
    requires Inv(d) && Enabled(d, a)
    ensures Inv(Apply(d, a))
  {
    hide Inv, Enabled, Apply;
    match a
    case Arrive(r) => ArriveKeeps(d, r);
    case Lead(room, n) => LeadKeeps(d, room, n);
    case Append(ok, landed) => AppendKeeps(d, ok, landed);
    case Sync(ok) => SyncKeeps(d, ok);
    case ApplyOp => ApplyOpKeeps(d);
    case Finish => FinishKeeps(d);
  }

  // ------------------------------------------------------------------ whole runs

  ghost predicate IsRun(states: seq<State>, actions: seq<Action>) {
    && |states| == |actions| + 1 && states[0] == Initial()
    && forall i :: 0 <= i < |actions| ==>
       Enabled(states[i], actions[i]) && states[i + 1] == Apply(states[i], actions[i])
  }

  lemma InitialIsOk()
    ensures Inv(Initial())
  {
  }

  lemma {:induction false} RunsKeepInv(states: seq<State>, actions: seq<Action>, i: nat)
    requires IsRun(states, actions) && i < |states|
    ensures Inv(states[i])
  {
    if i == 0 {
      InitialIsOk();
    } else {
      hide Inv, Enabled, Apply;
      RunsKeepInv(states, actions, i - 1);
      assert Enabled(states[i - 1], actions[i - 1]) && states[i] == Apply(states[i - 1], actions[i - 1]);
      StepKeepsInv(states[i - 1], actions[i - 1]);
    }
  }

  /** In every state of every run: writers are answered in order of arrival, each once; a writer
      answered with success has its batch in the log and in the memtable at a contiguous range of
      sequence numbers of its own, and on disk if it asked for a sync. */
  lemma WritersAreServed(states: seq<State>, actions: seq<Action>, n: nat)
    requires IsRun(states, actions) && n < |states|
    ensures var d := states[n];
            && d.arrivals == Requests(d.acks) + d.queue
            && (forall i, j :: 0 <= i < j < |d.acks| ==>
                  d.acks[i].start + (if d.acks[i].ok then |Batch(d.acks[i].req)| else 0) <= d.acks[j].start)
            && (forall i :: 0 <= i < |d.acks| && d.acks[i].ok && d.acks[i].req.batch.Some? ==>
                  InLog(d.log, d.acks[i]) && (d.acks[i].req.sync ==> d.acks[i].record < d.synced))
            && Applied(d.acks) <= d.mem
  {
    RunsKeepInv(states, actions, n);
    hide Applied, InFlight, Requests;
    forall i | 0 <= i < |states[n].acks|
      ensures AckOk(states[n].acks[i], states[n].log, states[n].synced, states[n].last) {}
  }

  function UpTo(es: seq<Entry>, s: nat): seq<Entry> {
    if es == [] then [] else
    UpTo(es[..|es| - 1], s) + if es[|es| - 1].ik.seqno <= s then [es[|es| - 1]] else []
  }

  lemma {:induction false} UpToSplits(a: seq<Entry>, b: seq<Entry>, s: nat)
    requires forall e :: e in a ==> e.ik.seqno <= s
    requires forall e :: e in b ==> e.ik.seqno > s
    ensures UpTo(a + b, s) == a
    decreases |a| + |b|
  {
    if b != [] {
      assert (a + b)[..|a + b| - 1] == a + b[..|b| - 1] && (a + b)[|a + b| - 1] == b[|b| - 1];
      UpToSplits(a, b[..|b| - 1], s);
    } else {
      assert a + b == a;
      UpToAll(a, s);
    }
  }

  lemma {:induction false} UpToAll(a: seq<Entry>, s: nat)
    requires forall e :: e in a ==> e.ik.seqno <= s
    ensures UpTo(a, s) == a
  {
    if a != [] {
      UpToAll(a[..|a| - 1], s);
      assert a == a[..|a| - 1] + [a[|a| - 1]];
    }
  }

  lemma {:induction false} AppliedIsBelow(acks: seq<Ack>, log: seq<Record>, synced: nat, last: nat)
    requires forall i :: 0 <= i < |acks| ==> AckOk(acks[i], log, synced, last)
    ensures forall e :: e in Applied(acks) ==> e.ik.seqno <= last
  {
    if acks != [] {
      AppliedIsBelow(acks[..|acks| - 1], log, synced, last);
    }
  }

  /** A reader never sees part of a group: what is visible at the last sequence number is exactly
      the batches of the writers answered with success, whole and in order. */
  lemma ReadersSeeWholeGroups(states: seq<State>, actions: seq<Action>, n: nat)
    requires IsRun(states, actions) && n < |states|
    ensures UpTo(states[n].mem, states[n].last) == Applied(states[n].acks)
  {
    RunsKeepInv(states, actions, n);
    var d := states[n];
    AppliedIsBelow(d.acks, d.log, d.synced, d.last);
    assert forall e :: e in InFlight(d) ==> e.ik.seqno > d.last;
    hide Applied, InFlight, Requests;
    UpToSplits(Applied(d.acks), InFlight(d), d.last);
  }

  /** A memtable switch asked for by a writer that rides in another's group does not happen: the group leader
      answers it along with its own batch.  It rides exactly when every request before it does. */
  lemma SwitchRequestCanRide(queue: seq<Request>, n: nat, i: nat)
    requires IsGroup(queue, n) && 1 <= i < |queue| && queue[i].batch.None? && !queue[i].sync
    ensures i < n <==> forall j :: 1 <= j < i ==> MayJoin(queue[0], Bytes(queue[..j]), queue[j])
  {
    assert MayJoin(queue[0], Bytes(queue[..i]), queue[i]);
  }
}
