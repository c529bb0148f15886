/** Crashes while the database is being opened (db/db_impl.cc Recover, RecoverLogFile; db/version_set.cc
    LogAndApply): until its manifest record is installed, recovery changes nothing that the next one reads. */
module CrashRetries {
  import opened Keys
  import opened Crashes

  /** The logs that a crash leaves: what survived it is on disk. */
  function Left(logs: seq<LogFile>, cuts: seq<nat>): (left: seq<LogFile>)
    requires |cuts| == |logs| && forall i :: 0 <= i < |logs| ==> cuts[i] <= |logs[i].records|
    ensures |left| == |logs|
  {
    seq(|logs|, i requires 0 <= i < |logs| => LogFile(logs[i].number, logs[i].records[..cuts[i]], cuts[i]))
  }

  /** A crash of the running database, and further ones each of which comes before recovery has installed its
      manifest record: tables written by then are in no version, and their numbers are given out again. */
  ghost predicate CrashesOk(logs: seq<LogFile>, crashes: seq<seq<nat>>)
    decreases |crashes|
  {
    crashes != [] ==> CutsOk(logs, crashes[0]) && CrashesOk(Left(logs, crashes[0]), crashes[1..])
  }

  ghost function LeftByAll(logs: seq<LogFile>, crashes: seq<seq<nat>>): seq<LogFile>
    requires CrashesOk(logs, crashes)
    decreases |crashes|
  {
    if crashes == [] then logs else LeftByAll(Left(logs, crashes[0]), crashes[1..])
  }

  /** What survived one crash survives the next, and nothing else is left to survive. */
  lemma NothingMoreIsLost(logs: seq<LogFile>, cuts: seq<nat>, again: seq<nat>)
    requires CutsOk(logs, cuts) && CutsOk(Left(logs, cuts), again)
    ensures again == cuts && Left(Left(logs, cuts), again) == Left(logs, cuts)
  {
    var left := Left(logs, cuts);
    forall i | 0 <= i < |logs| ensures again[i] == cuts[i] && Left(left, again)[i] == left[i] {
      assert left[i].synced == cuts[i] == |left[i].records|;
    }
  }

  lemma {:induction false} FirstCrashDecides(logs: seq<LogFile>, crashes: seq<seq<nat>>)
    requires crashes != [] && CrashesOk(logs, crashes)
    ensures LeftByAll(logs, crashes) == Left(logs, crashes[0])
    decreases |crashes|
  {
    var rest := crashes[1..];
    if rest != [] {
      NothingMoreIsLost(logs, crashes[0], rest[0]);
      FirstCrashDecides(Left(logs, crashes[0]), rest);
    }
  }

  lemma {:induction false} SameSurvivors(logs: seq<LogFile>, cuts: seq<nat>, logNumber: nat)
    requires CutsOk(logs, cuts)
    ensures CutsOk(Left(logs, cuts), cuts)
    ensures Survivors(Left(logs, cuts), cuts, logNumber) == Survivors(logs, cuts, logNumber)
  {
    if logs != [] {
      var n, left := |logs| - 1, Left(logs, cuts);
      SameSurvivors(logs[..n], cuts[..n], logNumber);
      assert left[..n] == Left(logs[..n], cuts[..n]);
      assert left[n].records[..cuts[n]] == logs[n].records[..cuts[n]];
    }
  }

  /** However often recovery is interrupted, the recovery that completes does what it would have done at once:
      the first crash and all the attempts are together one crash step of the running database. */
  lemma InterruptedRecovery(maxFileSize: nat, s: Sys, crashes: seq<seq<nat>>, last: Step)
    requires crashes != [] && CrashesOk(s.logs, crashes) && last.Crash?
    requires CanStep(maxFileSize, s.(logs := LeftByAll(s.logs, crashes)), last)
    ensures CanStep(maxFileSize, s, last.(cuts := crashes[0]))
    ensures After(maxFileSize, s.(logs := LeftByAll(s.logs, crashes)), last) ==
            After(maxFileSize, s, last.(cuts := crashes[0]))
  {
    hide Survivors, LastCounters, ChunksOk, Flat, LeftByAll;
    FirstCrashDecides(s.logs, crashes);
    NothingMoreIsLost(s.logs, crashes[0], last.cuts);
    SameSurvivors(s.logs, crashes[0], LastCounters(s.manifest).logNumber);
  }
}
