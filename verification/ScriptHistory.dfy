/**
 The automated script of one test case over its whole life: recorded by an executor, replayed
 and healed by cloud jobs and local runners that may hold an old copy of it, and approved,
 rejected, released or re-recorded by people.
 */
module ScriptHistory {
  import opened Common
  import opened FailurePipeline

  datatype Author = EXECUTOR | HEALER | MANUAL

  datatype Script = Script(log: Log, recordedBy: Author, version: nat, healCount: nat, stability: Stability)

  datatype HealStatus = HEAL_QUARANTINED | PENDING_REVIEW | COMMITTED | VERIFIED | REJECTED

  datatype HealLog = HealLog(status: HealStatus, patched: Option<Log>, committed: bool)

  /** `recorded` and `verified` remember the logs an executor recorded and those that passed verification. */
  datatype Life = Life(
    script: Option<Script>,
    heals: seq<HealLog>,
    copies: set<Log>,
    recorded: set<Log>,
    verified: set<Log>)

  const UNBORN := Life(None, [], {}, {}, {})

  /** Where a log may come from. */
  predicate Known(life: Life, log: Log) {
    log == [] || log in life.recorded || log in life.verified
  }

  /** The status a replay's heal log is written with, by the cloud job and by the local runner. */
  function HealStatusOf(r: Result): HealStatus {
    if r.quarantined then HEAL_QUARANTINED
    else if r.pendingReview then PENDING_REVIEW
    else if r.committed then COMMITTED
    else VERIFIED
  }

  /** The patch kept in the heal log: only for a committed or pending heal, else nothing. */
  function KeptPatch(r: Result): Option<Log> {
    if r.committed || r.pendingReview then Some(r.patched.GetOr(r.actions)) else None
  }

  predicate CloudWritesHeal(r: Result) {
    r.quarantined || r.committed || r.pendingReview
  }

  predicate LocalSendsHeal(r: Result) {
    r.applied != [] || r.pendingReview || r.quarantined || r.committed
  }

  datatype Action =
    | ReadScript
    | CloudRecord(log: Log)
    | LocalRecord(log: Log)
    | CloudReplay(input: Log, review: bool, h: seq<Effect>, result: Result, seen: Stability)
    | LocalReplay(input: Log, review: bool, h: seq<Effect>, result: Result, healCount: nat)
    | Approve(heal: nat)
    | Reject(heal: nat)
    | ClearQuarantine
    | Rerecord

  predicate CanDo(life: Life, a: Action) {
    match a
    case ReadScript => life.script.Some?
    case CloudRecord(_) => true
    case LocalRecord(_) => true
    case CloudReplay(input, review, h, r, _) => life.script.Some? && input in life.copies && Sound(input, review, h, r)
    case LocalReplay(input, review, h, r, _) => life.script.Some? && input in life.copies && Sound(input, review, h, r)
    case Approve(i) => i < |life.heals| && life.heals[i].status == PENDING_REVIEW
    case Reject(i) => i < |life.heals| && life.heals[i].status == PENDING_REVIEW
    case ClearQuarantine => life.script.Some?
    case Rerecord => life.script.Some?
  }

  /** The patches this replay verified. */
  function NewlyVerified(h: seq<Effect>, r: Result): set<Log> {
    if r.patched.Some? && VerifiedBy(h, r.patched.value) then {r.patched.value} else {}
  }

  function Recorded(script: Option<Script>, log: Log): Script {
    match script
    case None => Script(log, EXECUTOR, 1, 0, STABLE)
    case Some(s) => s.(log := log, recordedBy := EXECUTOR, version := s.version + 1)
  }

  function CommitHeal(s: Script, log: Log): Script {
    s.(log := log, recordedBy := HEALER, version := s.version + 1)
  }

  function Next(life: Life, a: Action): Life
    requires CanDo(life, a)
  {
    match a
    case ReadScript => life.(copies := life.copies + {life.script.value.log})
    // the cloud job stores whatever the recording gave, also the empty log of one that failed
    case CloudRecord(log) =>
      life.(script := Some(Recorded(life.script, log)), recorded := life.recorded + {log})
    // the API stores a runner's recording only when it is not empty
    case LocalRecord(log) =>
      var kept := if log == [] && life.script.Some? then life.script.value.log else log;
      life.(script := Some(Recorded(life.script, kept)), recorded := life.recorded + {log})
    // a heal that waits for review writes back the stability it read before the replay
    case CloudReplay(_, _, h, r, seen) =>
      var s := life.script.value;
      var s1 := s.(healCount := if r.committed || r.quarantined then s.healCount + 1 else s.healCount,
                   stability := if r.quarantined then QUARANTINED else if r.committed then WATCH
                                else if r.pendingReview then seen else s.stability);
      life.(script := Some(if r.committed then CommitHeal(s1, r.actions) else s1),
            heals := if CloudWritesHeal(r) then life.heals + [HealLog(HealStatusOf(r), KeptPatch(r), r.committed)]
                     else life.heals,
            verified := life.verified + NewlyVerified(h, r))
    case LocalReplay(_, _, h, r, healCount) =>
      var s := life.script.value;
      var s1 := s.(healCount := if r.committed then healCount + 1 else s.healCount,
                   stability := if r.quarantined then QUARANTINED else if r.committed then WATCH
                                else if r.verdict == PASSED then STABLE else s.stability);
      var patch := KeptPatch(r);
      life.(script := Some(if r.committed && patch.Some? && patch.value != [] then CommitHeal(s1, patch.value) else s1),
            heals := if LocalSendsHeal(r) then
                       life.heals + [HealLog(HealStatusOf(r), if patch == Some([]) then None else patch, r.committed)]
                     else life.heals,
            verified := life.verified + NewlyVerified(h, r))
    case Approve(i) =>
      var heal := life.heals[i];
      life.(heals := life.heals[i := heal.(status := COMMITTED, committed := true)],
            script := if life.script.Some? && heal.patched.Some? && heal.patched.value != []
                      then Some(CommitHeal(life.script.value, heal.patched.value).(stability := WATCH))
                      else life.script)
    case Reject(i) =>
      life.(heals := life.heals[i := life.heals[i].(status := REJECTED, committed := false)],
            script := if life.script.Some? then Some(life.script.value.(stability := QUARANTINED)) else None)
    case ClearQuarantine => life.(script := Some(life.script.value.(stability := WATCH)))
    case Rerecord =>
      life.(script := Some(life.script.value.(log := [], recordedBy := MANUAL, stability := WATCH, healCount := 0)))
  }

  ghost predicate RunsTo(life: Life, acts: seq<Action>, t: Life)
    decreases |acts|
  {
    if acts == [] then life == t
    else CanDo(life, acts[0]) && RunsTo(Next(life, acts[0]), acts[1..], t)
  }

  /** Everything stored or held is empty, recorded by an executor, or verified three times. */
  predicate Provenance(life: Life) {
    && (life.script.Some? ==> Known(life, life.script.value.log))
    && (forall heal :: heal in life.heals && heal.patched.Some? ==> Known(life, heal.patched.value))
    && (forall log :: log in life.copies ==> Known(life, log))
  }

  lemma ProvenanceStep(life: Life, a: Action)
    requires Provenance(life) && CanDo(life, a)
    ensures Provenance(Next(life, a))
  {
    var t := Next(life, a);
    assert forall log :: Known(life, log) ==> Known(t, log);
    match a {
      case CloudReplay(input, review, h, r, _) =>
        if r.committed || (r.pendingReview && r.patched.Some?) {
          assert VerifiedBy(h, r.patched.value) && r.patched.value in t.verified;
        }
      case LocalReplay(input, review, h, r, healCount) =>
        if r.committed || (r.pendingReview && r.patched.Some?) {
          assert VerifiedBy(h, r.patched.value) && r.patched.value in t.verified;
        }
      case Approve(i) => assert life.heals[i] in life.heals;
      case Reject(i) => assert life.heals[i] in life.heals;
      case _ =>
    }
  }

  /** Over every history of runs, decisions and re-recordings. */
  lemma {:induction false} EveryLogHasProvenance(life: Life, acts: seq<Action>, t: Life)
    requires Provenance(life) && RunsTo(life, acts, t)
    ensures Provenance(t)
    decreases |acts|
  {
    if acts != [] {
      ProvenanceStep(life, acts[0]);
      EveryLogHasProvenance(Next(life, acts[0]), acts[1..], t);
    }
  }

  lemma FromTheBeginning(acts: seq<Action>, t: Life)
    requires RunsTo(UNBORN, acts, t)
    ensures Provenance(t)
  {
    EveryLogHasProvenance(UNBORN, acts, t);
  }

  /**
   A local runner's heal log is labelled VERIFIED exactly when the heal failed its verification
   and the router did not quarantine the script; a heal that passed is COMMITTED or PENDING_REVIEW.
   */
  lemma VerifiedLabelMeansFailed(input: Log, review: bool, h: seq<Effect>, r: Result)
    requires Sound(input, review, h, r) && LocalSendsHeal(r)
    ensures HealStatusOf(r) == VERIFIED <==> r.patched.Some? && false in r.verification && !r.quarantined
  {
    if r.patched.Some? {
      if false in r.verification {
        var i :| 0 <= i < VERIFY_N && !r.verification[i];
      }
    }
  }

  /**
   Such a heal: the patch passed twice and failed once, a rule was applied, and the runner's heal
   log for it reads VERIFIED.
   */
  lemma FailedHealLabelledVerified(input: Log, patch: Log, rule: string, review: bool)
    returns (h: seq<Effect>, r: Result)
    ensures Sound(input, review, h, r) && Paced(h) && LocalSendsHeal(r)
    ensures HealStatusOf(r) == VERIFIED && r.verification == [true, true, false] && r.verdict == FAILED
  {
    h := [Goto(true), Replay(input, false), Goto(true), Replay(patch, true), Goto(true), Replay(patch, true),
          Goto(true), Replay(patch, false)];
    r := Result(FAILED, input, Some(patch), Decision(LLM_HEAL, false), false, false, false,
                [true, true, false], [rule]);
    assert !r.verification[2];
    assert h[2..][2..][2..][2..] == [];
    assert Paced(h[2..][2..][2..]);
    assert Paced(h[2..][2..]);
    assert Paced(h[2..]);
  }

  // ---------------------------------------------------------------------------------------
  // Which log a script holds
  // ---------------------------------------------------------------------------------------

  predicate HasPatch(heal: HealLog) {
    heal.patched.Some? && heal.patched.value != []
  }

  /** The log this action gives the script, if it gives it one. */
  function Sets(life: Life, a: Action): Option<Log>
    requires CanDo(life, a)
  {
    match a
    case CloudRecord(log) => Some(log)
    case LocalRecord(log) => if log == [] && life.script.Some? then None else Some(log)
    case CloudReplay(_, _, _, r, _) => if r.committed then r.patched else None
    case LocalReplay(_, _, _, r, _) => if r.committed && r.patched != Some([]) then r.patched else None
    case Approve(i) => if life.script.Some? && HasPatch(life.heals[i]) then life.heals[i].patched else None
    case Rerecord => Some([])
    case _ => None
  }

  /** The log that the last such action of the history gave it. */
  ghost function LastSet(life: Life, acts: seq<Action>): Option<Log>
    decreases |acts|
  {
    if acts == [] || !CanDo(life, acts[0]) then None
    else
      var later := LastSet(Next(life, acts[0]), acts[1..]);
      if later.Some? then later else Sets(life, acts[0])
  }

  function LogOf(life: Life): Option<Log> {
    if life.script.Some? then Some(life.script.value.log) else None
  }

  lemma SetsStep(life: Life, a: Action)
    requires CanDo(life, a)
    ensures LogOf(Next(life, a)) == if Sets(life, a).Some? then Sets(life, a) else LogOf(life)
  {
  }

  /** After any history the script holds what the last recording, commit, approval or re-record gave it. */
  lemma {:induction false} LogIsLastSet(life: Life, acts: seq<Action>, t: Life)
    requires RunsTo(life, acts, t)
    ensures LogOf(t) == if LastSet(life, acts).Some? then LastSet(life, acts) else LogOf(life)
    decreases |acts|
  {
    if acts != [] {
      SetsStep(life, acts[0]);
      LogIsLastSet(Next(life, acts[0]), acts[1..], t);
    }
  }

  /** The result and the input of a replay. */
  function ReplayOf(a: Action): (Log, Result)
    requires a.CloudReplay? || a.LocalReplay?
  {
    (a.input, a.result)
  }

  /**
   A replay writes one heal row or none. A heal held for review is one, with the patch or, for a
   proposal of the LLM healer, which has none, with the log that was replayed.
   */
  lemma HealRowOfReplay(life: Life, a: Action)
    requires CanDo(life, a) && (a.CloudReplay? || a.LocalReplay?)
    ensures var (input, r) := ReplayOf(a);
            var heals := Next(life, a).heals;
            && (heals == life.heals || (|heals| == |life.heals| + 1 && heals[..|life.heals|] == life.heals))
            && (|heals| > |life.heals| <==> r.quarantined || r.committed || r.pendingReview ||
                                            (a.LocalReplay? && r.applied != []))
            && (r.pendingReview && r.patched.GetOr(input) != [] ==>
                heals[|life.heals|].patched == Some(r.patched.GetOr(input)))
            && (|heals| > |life.heals| ==>
                (heals[|life.heals|].status == PENDING_REVIEW <==> r.pendingReview) &&
                (heals[|life.heals|].status == COMMITTED <==> r.committed) &&
                (r.committed && r.patched != Some([]) ==> heals[|life.heals|].patched == r.patched) &&
                (heals[|life.heals|].status == HEAL_QUARANTINED <==> r.quarantined) &&
                heals[|life.heals|].committed == r.committed)
  {
  }

  predicate Decides(a: Action, i: nat) {
    a == Approve(i) || a == Reject(i)
  }

  lemma {:induction false} PendingStays(life: Life, i: nat, acts: seq<Action>, t: Life)
    requires RunsTo(life, acts, t) && i < |life.heals| && life.heals[i].status == PENDING_REVIEW && life.script.Some?
    requires forall a :: a in acts ==> !Decides(a, i)
    ensures i < |t.heals| && t.heals[i] == life.heals[i] && t.script.Some?
    decreases |acts|
  {
    if acts != [] {
      assert acts[0] in acts;
      PendingStays(Next(life, acts[0]), i, acts[1..], t);
    }
  }

  /**
   A replay whose heal waits for review, any history in which it is not decided, and its approval:
   the script then holds the patch, or for a proposal without one the log that was replayed long
   before, whatever was recorded or committed in between.
   */
  lemma ApprovalGivesThePatch(life: Life, a: Action, acts: seq<Action>, s: Life)
    requires CanDo(life, a) && (a.CloudReplay? || a.LocalReplay?) && ReplayOf(a).1.pendingReview
    requires ReplayOf(a).1.patched.GetOr(ReplayOf(a).0) != []
    requires RunsTo(Next(life, a), acts, s) && forall b :: b in acts ==> !Decides(b, |life.heals|)
    ensures CanDo(s, Approve(|life.heals|)) && s.script.Some?
    ensures var (input, r) := ReplayOf(a);
            var t := Next(s, Approve(|life.heals|));
            t.script == Some(Script(r.patched.GetOr(input), HEALER, s.script.value.version + 1,
                                    s.script.value.healCount, WATCH))
  {
    HealRowOfReplay(life, a);
    PendingStays(Next(life, a), |life.heals|, acts, s);
  }

  /** Without a patch the approval undoes a recording made since: the script has the old copy's log again. */
  lemma ApprovalBringsBackOldLog(life: Life, a: Action, newer: Log)
    requires CanDo(life, a) && a.CloudReplay? && a.result.pendingReview && a.result.patched.None?
    requires a.input != [] && newer != a.input
    ensures var recorded := Next(Next(life, a), CloudRecord(newer));
            && LogOf(recorded) == Some(newer)
            && CanDo(recorded, Approve(|life.heals|))
            && LogOf(Next(recorded, Approve(|life.heals|))) == Some(a.input)
  {
    HealRowOfReplay(life, a);
  }

  /** What the version counts: recordings, commits and approvals of a patch. */
  predicate Counts(life: Life, a: Action)
    requires CanDo(life, a)
  {
    a.LocalRecord? || (a != Rerecord && Sets(life, a).Some?)
  }

  lemma VersionStep(life: Life, a: Action)
    requires CanDo(life, a) && life.script.Some?
    ensures var t := Next(life, a);
            && t.script.Some?
            && t.script.value.version == life.script.value.version + (if Counts(life, a) then 1 else 0)
            && (t.script.value.recordedBy == if a == Rerecord then MANUAL
                                             else if a.CloudRecord? || a.LocalRecord? then EXECUTOR
                                             else if Counts(life, a) then HEALER
                                             else life.script.value.recordedBy)
  {
  }

  // ---------------------------------------------------------------------------------------
  // What the heal count counts
  // ---------------------------------------------------------------------------------------

  /** A replay whose patch failed its verification, and that did nothing more. */
  predicate FailedHeal(a: Action) {
    (a.CloudReplay? || a.LocalReplay?) &&
    ReplayOf(a).1.patched.Some? && false in ReplayOf(a).1.verification && !ReplayOf(a).1.quarantined
  }

  lemma FailedHealStep(life: Life, a: Action)
    requires CanDo(life, a) && FailedHeal(a)
    ensures Next(life, a).script == life.script
  {
    var (input, r) := ReplayOf(a);
    assert exists i :: 0 <= i < |r.verification| && !r.verification[i];
    assert !r.committed && !r.pendingReview && r.verdict == FAILED;
  }

  /** However often a heal fails, the script stays as it was, its heal count and stability too. */
  lemma {:induction false} FailedHealsChangeNothing(life: Life, acts: seq<Action>, t: Life)
    requires life.script.Some? && RunsTo(life, acts, t)
    requires forall a :: a in acts ==> FailedHeal(a) || a == ReadScript
    ensures t.script == life.script
    decreases |acts|
  {
    if acts != [] {
      assert acts[0] in acts;
      if FailedHeal(acts[0]) {
        FailedHealStep(life, acts[0]);
      }
      FailedHealsChangeNothing(Next(life, acts[0]), acts[1..], t);
    }
  }

  /**
   So a script that never had a heal committed is not quarantined by any number of failed ones: the
   next run, with the count and the stability as they are stored, is healed by rule again.
   */
  lemma FailedHealsNeverQuarantine(life: Life, acts: seq<Action>, t: Life, page: Page, agents: Agents,
                                   classify: string -> FailureClass, o: Options, log: Log, start: seq<Effect>,
                                   h: seq<Effect>, r: Result)
    requires life.script.Some? && life.script.value.healCount == 0 && life.script.value.stability != QUARANTINED
    requires RunsTo(life, acts, t) && forall a :: a in acts ==> FailedHeal(a) || a == ReadScript
    requires t.script.Some? && o.healAttempts == t.script.value.healCount
    requires o.stability == Some(t.script.value.stability)
    requires Shipped(agents, classify) && Reported(page, agents, o, log, start, h, Finished(r))
    ensures !r.quarantined
    ensures Healable(ClassOf(LastError(page, classify, log, start), classify)) ==> r.patched.Some?
  {
    FailedHealsChangeNothing(life, acts, t);
    RunsByTheTable(page, agents, classify, o, log, start, h, r);
  }

  function Counted(a: Action): nat {
    if a.CloudReplay? && (a.result.committed || a.result.quarantined) then 1 else 0
  }

  function CountedIn(acts: seq<Action>): nat {
    if acts == [] then 0 else Counted(acts[0]) + CountedIn(acts[1..])
  }

  /** With cloud runs only and no re-record, the count is of heals committed and quarantines, not of failures. */
  lemma {:induction false} HealCountCounts(life: Life, acts: seq<Action>, t: Life)
    requires life.script.Some? && RunsTo(life, acts, t)
    requires forall a :: a in acts ==> !a.LocalReplay? && a != Rerecord
    ensures t.script.Some? && t.script.value.healCount == life.script.value.healCount + CountedIn(acts)
    decreases |acts|
  {
    if acts != [] {
      assert acts[0] in acts;
      HealCountCounts(Next(life, acts[0]), acts[1..], t);
    }
  }

  /** What a replay leaves the script's stability at. */
  lemma StabilityAfterReplay(life: Life, a: Action)
    requires CanDo(life, a) && (a.CloudReplay? || a.LocalReplay?)
    ensures Next(life, a).script.Some?
    ensures var r := ReplayOf(a).1;
            var before, after := life.script.value.stability, Next(life, a).script.value.stability;
            && (r.quarantined ==> after == QUARANTINED)
            && (r.committed ==> after == WATCH)
            && (!r.quarantined && !r.committed ==>
                after == if a.CloudReplay? && r.pendingReview then a.seen
                         else if a.LocalReplay? && r.verdict == PASSED then STABLE
                         else before)
            && (a.LocalReplay? && r.committed ==> Next(life, a).script.value.healCount == a.healCount + 1)
            && (a.LocalReplay? && !r.committed ==>
                Next(life, a).script.value.healCount == life.script.value.healCount)
  {
  }

  // ---------------------------------------------------------------------------------------
  // The API's decisions on the stored rows
  // ---------------------------------------------------------------------------------------

  datatype Answer = Done | NotFound | NotAwaitingReview

  /** Only the stability changed, if there is a script. */
  predicate StabilitySet(before: Option<Script>, after: Option<Script>, stability: Stability) {
    && (before.None? <==> after.None?)
    && (before.Some? ==> after.value.log == before.value.log && after.value.version == before.value.version &&
                         after.value.recordedBy == before.value.recordedBy &&
                         after.value.healCount == before.value.healCount && after.value.stability == stability)
  }

  class ScriptRows {
    var script: Option<Script>
    var heals: seq<HealLog>
    ghost var copies: set<Log>
    ghost var recorded: set<Log>
    ghost var verified: set<Log>

    ghost function View(): Life
      reads this
    {
      Life(script, heals, copies, recorded, verified)
    }

    method DecideHeal(heal: nat, approve: bool) returns (r: Answer)
      modifies this
      ensures r == if heal >= |old(heals)| then NotFound
                   else if old(heals)[heal].status != PENDING_REVIEW then NotAwaitingReview
                   else Done
      ensures r != Done ==> View() == old(View())
      ensures r == Done ==> |heals| == |old(heals)|
      ensures r == Done ==> forall i :: 0 <= i < |heals| && i != heal ==> heals[i] == old(heals)[i]
      ensures r == Done ==>
                heals[heal] == HealLog(if approve then COMMITTED else REJECTED, old(heals)[heal].patched, approve)
      ensures r == Done && approve && old(script).Some? && HasPatch(old(heals)[heal]) ==>
                script == Some(Script(old(heals)[heal].patched.value, HEALER, old(script).value.version + 1,
                                      old(script).value.healCount, WATCH))
      ensures r == Done && approve && (old(script).None? || !HasPatch(old(heals)[heal])) ==> script == old(script)
      ensures r == Done && !approve ==> StabilitySet(old(script), script, QUARANTINED)
      ensures r == Done ==> View() == Next(old(View()), if approve then Approve(heal) else Reject(heal))
    {
      if heal >= |heals| { return NotFound; }
      var log := heals[heal];
      if log.status != PENDING_REVIEW { return NotAwaitingReview; }
      if !approve {
        heals := heals[heal := log.(status := REJECTED, committed := false)];
        if script.Some? {
          script := Some(script.value.(stability := QUARANTINED));
        }
        return Done;
      }
      heals := heals[heal := log.(status := COMMITTED, committed := true)];
      if script.Some? && log.patched.Some? && log.patched.value != [] {
        script := Some(CommitHeal(script.value, log.patched.value).(stability := WATCH));
      }
      r := Done;
    }

    method RerecordScript() returns (r: Answer)
      modifies this
      ensures r == if old(script).None? then NotFound else Done
      ensures heals == old(heals)
      ensures r == Done ==> script == Some(Script([], MANUAL, old(script).value.version, 0, WATCH))
      ensures View() == if r == Done then Next(old(View()), Rerecord) else old(View())
    {
      if script.None? { return NotFound; }
      script := Some(script.value.(log := [], recordedBy := MANUAL, stability := WATCH, healCount := 0));
      r := Done;
    }

    method ReleaseQuarantine() returns (r: Answer)
      modifies this
      ensures r == if old(script).None? then NotFound else Done
      ensures heals == old(heals) && StabilitySet(old(script), script, WATCH)
      ensures View() == if r == Done then Next(old(View()), ClearQuarantine) else old(View())
    {
      if script.None? { return NotFound; }
      script := Some(script.value.(stability := WATCH));
      r := Done;
    }
  }
}
