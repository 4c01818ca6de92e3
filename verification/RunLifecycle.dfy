/**
 The end of a cloud run. The job walks its cases, checking a cancel key before each; then it
 reads the run's status once more and writes the final one, while people may Stop or Complete
 the run at any moment. Stop sets the cancel key and the status, Complete the status.
 */
module RunLifecycle {
  import opened RunHandout

  /** `Ran` is after the case loop; `Read` holds the status the job read last. */
  datatype Pc = Cases(left: nat) | Ran | Read(latest: Status) | Over

  datatype Decision = Undecided | Completed | Stopped

  /** `sawFlag` is the job's own `cancelled`; `decision` is what a person decided first. */
  datatype Run = Run(status: Status, cancelKey: bool, pc: Pc, sawFlag: bool, decision: Decision)

  datatype Step =
    | CheckCancel
    | ReadLatest
    | WriteEnd
    | Stop
    | Complete
    | KeyExpires

  predicate Can(s: Run, a: Step) {
    match a
    case CheckCancel => s.pc.Cases?
    case ReadLatest => s.pc.Ran?
    case WriteEnd => s.pc.Read?
    case Stop => !Terminal(s.status)
    case Complete => s.status == RUNNING
    case KeyExpires => s.cancelKey
  }

  /** The write that ends the job, with only the row and what the job remembers. */
  function EndStatus(status: Status, latest: Status, sawFlag: bool): Status {
    if sawFlag || latest == CANCELLED then CANCELLED
    else if latest == COMPLETED then status
    else if Terminal(status) then status
    else RUNNING
  }

  function After(s: Run, a: Step): Run
    requires Can(s, a)
  {
    match a
    case CheckCancel =>
      if s.cancelKey then s.(pc := Ran, sawFlag := true)
      else if s.pc.left > 0 then s.(pc := Cases(s.pc.left - 1))
      else s.(pc := Ran)
    case ReadLatest => s.(pc := Read(s.status))
    case WriteEnd => s.(pc := Over, status := EndStatus(s.status, s.pc.latest, s.sawFlag))
    case Stop =>
      s.(status := CANCELLED, cancelKey := true, decision := if s.decision.Undecided? then Stopped else s.decision)
    case Complete => s.(status := COMPLETED, decision := if s.decision.Undecided? then Completed else s.decision)
    case KeyExpires => s.(cancelKey := false)
  }

  ghost predicate Runs(s: Run, steps: seq<Step>, t: Run)
    decreases |steps|
  {
    if steps == [] then s == t
    else Can(s, steps[0]) && Runs(After(s, steps[0]), steps[1..], t)
  }

  /** Just after the job wrote RUNNING. */
  predicate JustStarted(s: Run) {
    s.status == RUNNING && s.pc.Cases? && !s.sawFlag && s.decision.Undecided?
  }

  function Decided(d: Decision): Status {
    match d
    case Undecided => RUNNING
    case Completed => COMPLETED
    case Stopped => CANCELLED
  }

  /** The job saw a cancel key although nobody stopped this run: a key left over from before. */
  predicate SawStaleKey(s: Run) {
    s.sawFlag && s.decision != Stopped
  }

  predicate Inv(s: Run, clean: bool) {
    && (s.pc.Cases? ==> !s.sawFlag)
    && (s.pc.Read? ==> s.pc.latest == Decided(s.decision) || s.pc.latest == RUNNING)
    && (!s.pc.Over? ==> s.status == Decided(s.decision))
    && (s.pc.Over? && !SawStaleKey(s) ==> s.status == Decided(s.decision))
    && (clean && s.cancelKey ==> s.decision == Stopped)
    && (clean ==> !SawStaleKey(s))
  }

  lemma InvAfter(s: Run, a: Step, clean: bool)
    requires Inv(s, clean) && Can(s, a) && (s.pc.Over? ==> a.KeyExpires?)
    ensures Inv(After(s, a), clean)
  {
  }

  lemma {:induction false} InvRuns(s: Run, steps: seq<Step>, t: Run, clean: bool)
    requires Inv(s, clean) && Runs(s, steps, t) && t.pc.Over? && EndsWithWrite(steps)
    requires !s.pc.Over?
    ensures Inv(t, clean)
    decreases |steps|
  {
    if steps != [] {
      InvAfter(s, steps[0], clean);
      var s1 := After(s, steps[0]);
      if s1.pc.Over? {
        assert steps[0] == WriteEnd;
        assert steps[1..] == [];
      } else {
        InvRuns(s1, steps[1..], t, clean);
      }
    }
  }

  /** The interleaving that ends with the job's last write. */
  predicate EndsWithWrite(steps: seq<Step>) {
    forall i :: 0 <= i < |steps| && steps[i] == WriteEnd ==> i == |steps| - 1
  }

  /**
   With no cancel key left over from an earlier stop, whatever a person decided first is what
   the run ends as, even if they decided between the job's last read and its last write.
   */
  lemma DecisionIsFinal(s: Run, steps: seq<Step>, t: Run)
    requires JustStarted(s) && !s.cancelKey
    requires Runs(s, steps, t) && t.pc.Over? && EndsWithWrite(steps)
    ensures t.status == Decided(t.decision)
  {
    InvRuns(s, steps, t, true);
  }

  /** In general it ends as decided exactly when the job did not see such a key. */
  lemma DecisionIsFinalIffNoStaleKey(s: Run, steps: seq<Step>, t: Run)
    requires JustStarted(s)
    requires Runs(s, steps, t) && t.pc.Over? && EndsWithWrite(steps)
    ensures t.status == Decided(t.decision) <==> !SawStaleKey(t)
  {
    InvRuns(s, steps, t, false);
    if SawStaleKey(t) {
      StaleKeyCancels(s, steps, t);
    }
  }

  lemma {:induction false} StaleKeyCancels(s: Run, steps: seq<Step>, t: Run)
    requires !s.pc.Over? && Runs(s, steps, t) && t.pc.Over? && t.sawFlag && EndsWithWrite(steps)
    ensures t.status == CANCELLED
    decreases |steps|
  {
    var s1 := After(s, steps[0]);
    if s1.pc.Over? {
      assert steps[0] == WriteEnd;
      assert steps[1..] == [];
    } else {
      StaleKeyCancels(s1, steps[1..], t);
    }
  }

  lemma Before(s: Run, a: Step, s1: Run, steps: seq<Step>, t: Run)
    requires Can(s, a) && s1 == After(s, a) && Runs(s1, steps, t)
    ensures Runs(s, [a] + steps, t)
  {
    assert ([a] + steps)[1..] == steps;
  }

  /** With a left-over key the job ends a run that a person completed as cancelled. */
  lemma StaleKeyOverwritesComplete(left: nat) returns (steps: seq<Step>, t: Run)
    ensures JustStarted(Run(RUNNING, true, Cases(left), false, Undecided))
    ensures Runs(Run(RUNNING, true, Cases(left), false, Undecided), steps, t) && t.pc.Over? && EndsWithWrite(steps)
    ensures t.decision == Completed && t.status == CANCELLED
  {
    var s0 := Run(RUNNING, true, Cases(left), false, Undecided);
    var s1 := After(s0, CheckCancel);
    var s2 := After(s1, Complete);
    var s3 := After(s2, ReadLatest);
    t := After(s3, WriteEnd);
    steps := [];
    Before(s3, WriteEnd, t, steps, t);
    steps := [WriteEnd] + steps;
    Before(s2, ReadLatest, s3, steps, t);
    steps := [ReadLatest] + steps;
    Before(s1, Complete, s2, steps, t);
    steps := [Complete] + steps;
    Before(s0, CheckCancel, s1, steps, t);
    steps := [CheckCancel] + steps;
  }

  /** Every end of the job, however people and expiry interleave, is what a person decided first. */
  ghost predicate AlwaysEndsAsDecided(s: Run) {
    forall steps, t :: Runs(s, steps, t) && t.pc.Over? && EndsWithWrite(steps) ==> t.status == Decided(t.decision)
  }

  /** That holds for a job just when no cancel key is left over as it starts. */
  lemma EndsAsDecidedIffNoKeyAtStart(s: Run)
    requires JustStarted(s)
    ensures AlwaysEndsAsDecided(s) <==> !s.cancelKey
  {
    if s.cancelKey {
      var steps, t := StaleKeyOverwritesComplete(s.pc.left);
      assert Runs(s, steps, t) && t.pc.Over? && EndsWithWrite(steps);
    } else {
      forall steps, t | Runs(s, steps, t) && t.pc.Over? && EndsWithWrite(steps)
        ensures t.status == Decided(t.decision)
      {
        DecisionIsFinal(s, steps, t);
      }
    }
  }

  /**
   After Stop no further case is begun: as long as the key has not expired, the job is where it was
   between two cases, or it has left the loop knowing that it was cancelled.
   */
  lemma {:induction false} StopEndsCases(s: Run, steps: seq<Step>, t: Run)
    requires s.cancelKey && s.pc.Cases? && !s.sawFlag
    requires Runs(s, steps, t) && KeyExpires !in steps
    ensures t.pc == s.pc || (!t.pc.Cases? && t.sawFlag)
    decreases |steps|
  {
    if steps != [] {
      assert steps[0] in steps;
      var s1 := After(s, steps[0]);
      if s1.pc.Cases? {
        StopEndsCases(s1, steps[1..], t);
      } else {
        SeenStaysSeen(s1, steps[1..], t);
      }
    }
  }

  lemma {:induction false} SeenStaysSeen(s: Run, steps: seq<Step>, t: Run)
    requires s.sawFlag && !s.pc.Cases? && Runs(s, steps, t)
    ensures t.sawFlag && !t.pc.Cases?
    decreases |steps|
  {
    if steps != [] {
      SeenStaysSeen(After(s, steps[0]), steps[1..], t);
    }
  }

  lemma StopIsSeen(s: Run, steps: seq<Step>, t: Run)
    requires Can(s, Stop) && s.pc.Cases? && !s.sawFlag
    requires Runs(After(s, Stop), steps, t) && KeyExpires !in steps
    ensures t.pc == s.pc || (!t.pc.Cases? && t.sawFlag)
    ensures t.pc.Over? && EndsWithWrite(steps) ==> t.status == CANCELLED
  {
    var s1 := After(s, Stop);
    StopEndsCases(s1, steps, t);
    if t.pc.Over? && EndsWithWrite(steps) {
      StaleKeyCancels(s1, steps, t);
    }
  }

  /** The tail of `runAiExecuteJob` on the row as it is when nobody interferes. */
  class RunRow {
    var status: Status

    constructor (status: Status)
      ensures this.status == status
    {
      this.status := status;
    }

    /** `updateMany` guarded by the statuses the job may still turn into RUNNING. */
    method UpdateWhereOpen()
      modifies this
      ensures status == if Terminal(old(status)) then old(status) else RUNNING
    {
      if status == PENDING || status == RUNNING || status == FAILED || status == QUEUED {
        status := RUNNING;
      }
    }

    /** `latest` was read earlier; the row may have changed since. */
    method FinishJob(latest: Status, cancelled: bool)
      modifies this
      ensures status == EndStatus(old(status), latest, cancelled)
      ensures status == if cancelled || latest == CANCELLED then CANCELLED
                        else if latest == COMPLETED || old(status) == COMPLETED || old(status) == CANCELLED
                        then old(status) else RUNNING
      ensures !cancelled && latest != CANCELLED && Terminal(old(status)) ==> status == old(status)
    {
      if cancelled || latest == CANCELLED {
        status := CANCELLED;
        return;
      }
      if latest == COMPLETED {
        return;
      }
      UpdateWhereOpen();
    }
  }
}
