/** What a failing write does to the writers behind it (db/db_impl.cc): a failed sync ends all
    writing, since what reached the log file is then unknown, and a writer fails for no other reason
    than a failing step. */
module GroupFailures {
  import opened GroupCommit

  /** Nothing has been logged, applied or synced since `d0`, and only failures were answered. */
  ghost predicate Halted(d0: State, d: State) {
    && d.error && d.log == d0.log && d.mem == d0.mem && d.synced == d0.synced
    && (d.phase.Leading? ==> d.phase.stage.ToFinish? && !d.phase.ok)
    && |d0.acks| <= |d.acks| && (forall k :: |d0.acks| <= k < |d.acks| ==> !d.acks[k].ok)
  }

  lemma {:induction false} AcksHaveStatus(rs: seq<Request>, start: nat, record: nat, ok: bool)
    ensures forall k :: 0 <= k < |rs| ==> Acks(rs, start, record, ok)[k].ok == ok
  {
    if rs != [] {
      AcksHaveStatus(rs[..|rs| - 1], start, record, ok);
    }
  }

  lemma StaysHalted(d0: State, d: State, a: Action)
    requires Halted(d0, d) && Enabled(d, a)
    ensures Halted(d0, Apply(d, a))
  {
    if a.Finish? {
      AcksHaveStatus(d.queue[..d.phase.n], d.last + 1, LastRecord(d.log), d.phase.ok);
    }
  }

  /** Once a sync has failed, nothing more is logged, inserted or synced, and every writer answered
      from then on, those of the failed group among them, is told of a failure. */
  lemma {:induction false} AfterAFailedSync(states: seq<State>, actions: seq<Action>, i: nat, n: nat)
    requires IsRun(states, actions) && i < n < |states| && actions[i] == Sync(false)
    ensures Halted(states[i], states[n])
    decreases n
  {
    hide Acks;
    if n > i + 1 {
      AfterAFailedSync(states, actions, i, n - 1);
      StaysHalted(states[i], states[n - 1], actions[n - 1]);
    }
  }

  ghost predicate MadeBySync(states: seq<State>, actions: seq<Action>, n: nat, i: nat)
    requires |states| == |actions| + 1 && n < |states|
  {
    i < n && actions[i] == Sync(true) && states[n].synced == |states[i].log|
  }

  /** What counts as synced is what the log held when the last successful sync was made. */
  lemma {:induction false} SyncedIsBySync(states: seq<State>, actions: seq<Action>, n: nat)
    requires IsRun(states, actions) && n < |states|
    ensures states[n].synced == 0 || exists i: nat :: MadeBySync(states, actions, n, i)
  {
    hide Acks;
    if n > 0 {
      SyncedIsBySync(states, actions, n - 1);
      var a := actions[n - 1];
      if a == Sync(true) {
        assert MadeBySync(states, actions, n, n - 1);
      } else if states[n].synced > 0 {
        var i: nat :| MadeBySync(states, actions, n - 1, i);
        assert MadeBySync(states, actions, n, i);
      }
    }
  }

  predicate Fails(a: Action) {
    match a
    case Lead(room, _) => !room
    case Append(ok, _) => !ok
    case Sync(ok) => !ok
    case _ => false
  }

  ghost predicate Thriving(d: State) {
    && !d.error && (d.phase.Leading? ==> d.phase.ok)
    && forall k :: 0 <= k < |d.acks| ==> d.acks[k].ok
  }

  lemma StaysThriving(d: State, a: Action)
    requires Thriving(d) && Enabled(d, a) && !Fails(a)
    ensures Thriving(Apply(d, a))
  {
    if a.Finish? {
      AcksHaveStatus(d.queue[..d.phase.n], d.last + 1, LastRecord(d.log), d.phase.ok);
    }
  }

  /** While room is found and appending and syncing succeed, every writer is answered with success. */
  lemma {:induction false} NoFailureMeansSuccess(states: seq<State>, actions: seq<Action>, n: nat)
    requires IsRun(states, actions) && n < |states| && forall i :: 0 <= i < n ==> !Fails(actions[i])
    ensures Thriving(states[n])
  {
    hide Acks;
    if n > 0 {
      NoFailureMeansSuccess(states, actions, n - 1);
      StaysThriving(states[n - 1], actions[n - 1]);
    }
  }

  /** After a failed append the memtable is left alone and the whole group fails, but later writers are not
      turned away; the sequence numbers of the group are used up all the same. */
  lemma FailedGroupIsNotApplied(d: State, ok: bool, landed: bool)
    requires Inv(d) && Enabled(d, Append(ok, landed)) && !ok
    ensures var d' := Apply(d, Append(ok, landed));
            && Enabled(d', Finish)
            && var d'' := Apply(d', Finish);
               && d''.mem == d.mem && d''.error == d.error && d''.last == d.last + |d.phase.ops|
               && |d''.acks| == |d.acks| + d.phase.n
               && forall k :: |d.acks| <= k < |d''.acks| ==> !d''.acks[k].ok
  {
    AcksHaveStatus(d.queue[..d.phase.n], d.last + 1,
                   LastRecord(Apply(d, Append(ok, landed)).log), false);
  }

  /** A leader is never stuck: whatever its outcome, the step due can be taken, up to the answers to its group. */
  lemma LeaderGoesOn(d: State, ok: bool)
    requires Inv(d) && d.phase.Leading?
    ensures match d.phase.stage
            case ToLog => Enabled(d, Append(ok, ok))
            case ToSync => Enabled(d, Sync(ok))
            case ToApply => if d.phase.applied < |d.phase.ops| then Enabled(d, ApplyOp) else Enabled(d, Finish)
            case ToFinish => Enabled(d, Finish)
  {
    hide AcksOk, Applied, InFlight, LogAscends;
  }
}
