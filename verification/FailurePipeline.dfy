/**
 Replaying a recorded script and healing it: retry, route, patch by rule, verify three times,
 then commit, hold for review or give up. The page, the router and the healer are arbitrary;
 the page remembers what was done to it.
 */
module FailurePipeline {
  import opened Common

  const VERIFY_N: nat := 3

  datatype Entry = Entry(kind: string, locator: string, value: string, timeoutMs: nat)

  /** A recorded action log. */
  type Log = seq<Entry>

  datatype Stability = STABLE | WATCH | FLAKY | QUARANTINED

  datatype Skill = GENERATE | PLAN | RECORD | REPLAY | RETRY | RULE_HEAL | LLM_HEAL | QUARANTINE | DEFECT | ESCALATE

  datatype Decision = Decision(skill: Skill, auto: bool)

  datatype RouteInput = RouteInput(
    hasValidScript: bool,
    stability: Option<Stability>,
    lastError: Option<string>,
    retryCount: nat,
    healAttempts: nat,
    healRequiresReview: Option<bool>,
    llmHealRequiresApproval: bool,
    isP0: Option<bool>)

  /** What the caller sets for one script, and the questions the pipeline asks the router with it. */
  datatype Options = Options(
    healAttempts: nat,
    stability: Option<Stability>,
    healRequiresReview: bool,
    llmHealRequiresApproval: bool,
    isP0: bool)
  {
    function NeedsReview(): bool {
      healRequiresReview || isP0
    }

    function AtStart(hasScript: bool): RouteInput {
      RouteInput(hasScript, stability, None, 0, healAttempts, Some(healRequiresReview), llmHealRequiresApproval,
                 Some(isP0))
    }

    function AfterFailure(error: Option<string>, retries: nat): RouteInput {
      RouteInput(true, None, error, retries, healAttempts, Some(healRequiresReview), llmHealRequiresApproval,
                 Some(isP0))
    }

    function AfterHeal(error: Option<string>): RouteInput {
      RouteInput(true, None, error, 1, healAttempts + 1, None, llmHealRequiresApproval, None)
    }
  }

  /** An arbitrary router and rule healer. */
  datatype Agents = Agents(route: RouteInput -> Decision, heal: (Log, Option<string>) -> (Log, seq<string>))

  datatype Verdict = PASSED | FAILED

  datatype Result = Result(
    verdict: Verdict,
    actions: Log,
    patched: Option<Log>,
    decision: Decision,
    committed: bool,
    pendingReview: bool,
    quarantined: bool,
    verification: seq<bool>,
    applied: seq<string>)

  /** `gotoStart` may throw, and its exception leaves the pipeline. */
  datatype Outcome = Threw | Finished(result: Result)

  datatype Effect = Goto(ok: bool) | Replay(log: Log, ok: bool)

  /** A browser page whose behaviour may depend on everything done to it so far. */
  class Page {
    var history: seq<Effect>
    const opens: seq<Effect> -> bool
    const failure: (seq<Effect>, Log) -> Option<string>

    constructor (opens: seq<Effect> -> bool, failure: (seq<Effect>, Log) -> Option<string>)
      ensures history == [] && this.opens == opens && this.failure == failure
    {
      history := [];
      this.opens, this.failure := opens, failure;
    }

    method GotoStart() returns (ok: bool)
      modifies this
      ensures history == old(history) + [Goto(ok)]
      ensures ok == opens(old(history))
    {
      ok := opens(history);
      history := history + [Goto(ok)];
    }

    method TryReplay(log: Log) returns (error: Option<string>)
      modifies this
      ensures history == old(history) + [Replay(log, error.None?)]
      ensures error == failure(old(history), log)
    {
      error := failure(history, log);
      history := history + [Replay(log, error.None?)];
    }
  }

  /** Every replay comes directly after a page load that worked; only a failed load ends the sequence early. */
  predicate Paced(h: seq<Effect>) {
    h == [] || h == [Goto(false)] || (|h| >= 2 && h[0] == Goto(true) && h[1].Replay? && Paced(h[2..]))
  }

  /** The last three replays were of this log, and all passed. */
  predicate VerifiedBy(h: seq<Effect>, log: Log) {
    |h| >= 2 * VERIFY_N &&
    forall k :: 0 <= k < VERIFY_N ==> h[|h| - 1 - 2 * k] == Replay(log, true)
  }

  /** What the pipeline guarantees about its result, given what it did to the page. */
  predicate Sound(input: Log, review: bool, h: seq<Effect>, r: Result) {
    // the verdict
    && (r.verdict == PASSED ==> |h| > 0 && h[|h| - 1] == Replay(r.actions, true))
    && (h != [] && h[|h| - 1] == Replay(input, true) && r.patched.None? ==> r.verdict == PASSED)
    && (h != [] ==> |h| >= 2 && h[1].Replay? && h[1].log == input)
    && (r.patched.None? ==> |h| <= 4)
    // at most one way to dispose of the script, and only a commit changes it
    && !(r.committed && r.pendingReview) && !(r.committed && r.quarantined) && !(r.pendingReview && r.quarantined)
    && (r.actions != input ==> r.committed)
    && (r.committed ==> r.verdict == PASSED && r.patched == Some(r.actions) && !review && r.decision.auto)
    && (r.pendingReview ==> r.verdict == FAILED && !r.decision.auto)
    && (r.quarantined ==> r.verdict == FAILED)
    // a patch is disposed of by its verification
    && (r.patched.None? ==> r.verification == [] && r.applied == [] && !r.committed)
    && (r.patched.Some? ==> |r.verification| == VERIFY_N)
    && (r.patched.Some? && (forall i :: 0 <= i < VERIFY_N ==> r.verification[i]) ==>
          VerifiedBy(h, r.patched.value) && (if review then r.pendingReview else r.committed))
    && (r.patched.Some? && !(forall i :: 0 <= i < VERIFY_N ==> r.verification[i]) ==>
          !r.committed && !r.pendingReview && r.verdict == FAILED)
  }

  function Plain(verdict: Verdict, actions: Log, d: Decision): Result {
    Result(verdict, actions, None, d, false, false, false, [], [])
  }

  /** The effects of verifying a patch so far. */
  ghost function Rounds(log: Log, ok: seq<bool>): (h: seq<Effect>)
    ensures |h| == 2 * |ok|
  {
    if ok == [] then [] else Rounds(log, ok[..|ok| - 1]) + [Goto(true), Replay(log, ok[|ok| - 1])]
  }

  lemma {:induction false} RoundsPaced(log: Log, ok: seq<bool>)
    ensures forall i :: 0 <= i < |ok| ==>
              Rounds(log, ok)[2 * i] == Goto(true) && Rounds(log, ok)[2 * i + 1] == Replay(log, ok[i])
  {
    if ok != [] {
      RoundsPaced(log, ok[..|ok| - 1]);
    }
  }

  predicate AllPassed(ok: seq<bool>) {
    forall i :: 0 <= i < |ok| ==> ok[i]
  }

  lemma {:induction false} PacedAppend(h: seq<Effect>, more: seq<Effect>)
    requires Paced(h) && Paced(more) && Goto(false) !in h
    ensures Paced(h + more)
  {
    if h == [] {
      assert h + more == more;
    } else {
      assert h[0] in h;
      assert (h + more)[2..] == h[2..] + more;
      PacedAppend(h[2..], more);
    }
  }

  lemma {:induction false} RoundsKeepPace(h: seq<Effect>, log: Log, ok: seq<bool>)
    requires Paced(h) && Goto(false) !in h
    ensures Paced(h + Rounds(log, ok)) && Paced(h + Rounds(log, ok) + [Goto(false)])
    ensures Goto(false) !in h + Rounds(log, ok)
    decreases |ok|
  {
    if ok == [] {
      assert h + Rounds(log, ok) == h;
    } else {
      var last := [Goto(true), Replay(log, ok[|ok| - 1])];
      var before := h + Rounds(log, ok[..|ok| - 1]);
      RoundsKeepPace(h, log, ok[..|ok| - 1]);
      assert last[2..] == [];
      PacedAppend(before, last);
      assert h + Rounds(log, ok) == before + last;
    }
    PacedAppend(h + Rounds(log, ok), [Goto(false)]);
  }

  lemma RoundsVerify(h: seq<Effect>, log: Log, ok: seq<bool>)
    requires |ok| == VERIFY_N && AllPassed(ok)
    ensures VerifiedBy(h + Rounds(log, ok), log)
  {
    RoundsPaced(log, ok);
    var r := Rounds(log, ok);
    assert r[1] == Replay(log, ok[0]) && r[3] == Replay(log, ok[1]) && r[5] == Replay(log, ok[2]);
  }

  /** What the page has seen once a patch was verified, or a load failed on the way. */
  lemma AfterVerifying(h: seq<Effect>, log: Log, loaded: bool, ok: seq<bool>)
    requires Paced(h) && Goto(false) !in h && (|h| == 2 || |h| == 4)
    requires if loaded then |ok| == VERIFY_N else |ok| < VERIFY_N
    ensures var after := h + Rounds(log, ok) + if loaded then [] else [Goto(false)];
            && Paced(after) && 0 < |after| <= 2 * (2 + VERIFY_N)
            && after[|after| - 1] == (if loaded then Replay(log, ok[VERIFY_N - 1]) else Goto(false))
            && (loaded && AllPassed(ok) ==> VerifiedBy(after, log))
  {
    RoundsKeepPace(h, log, ok);
    if loaded {
      RoundsPaced(log, ok);
      assert h + Rounds(log, ok) + [] == h + Rounds(log, ok);
      if AllPassed(ok) {
        RoundsVerify(h, log, ok);
      }
    }
  }

  /** One attempt on a fresh page. */
  method OpenAndReplay(page: Page, log: Log) returns (loaded: bool, error: Option<string>)
    modifies page
    ensures page.history ==
            old(page.history) + if loaded then [Goto(true), Replay(log, error.None?)] else [Goto(false)]
    ensures loaded ==> error == page.failure(old(page.history) + [Goto(true)], log)
  {
    error := None;
    loaded := page.GotoStart();
    if loaded {
      error := page.TryReplay(log);
    }
  }

  /** The verification loop. It stops early only when the page does not load. */
  method VerifyPatch(page: Page, patched: Log) returns (loaded: bool, verification: seq<bool>)
    modifies page
    ensures if loaded then |verification| == VERIFY_N else |verification| < VERIFY_N
    ensures page.history ==
            old(page.history) + Rounds(patched, verification) + if loaded then [] else [Goto(false)]
  {
    verification := [];
    for i := 0 to VERIFY_N
      invariant |verification| == i
      invariant page.history == old(page.history) + Rounds(patched, verification)
    {
      var failure;
      loaded, failure := OpenAndReplay(page, patched);
      if !loaded {
        return;
      }
      verification := verification + [failure.None?];
      assert verification[..i] + [failure.None?] == verification;
    }
    loaded := true;
  }

  /**
   How the one or two attempts before any heal go, for a page that fails as `failure` says: the
   error and the decision they end with. A second attempt follows exactly a decision to retry.
   */
  ghost predicate Attempted(page: Page, agents: Agents, o: Options, log: Log, start: seq<Effect>, h: seq<Effect>,
                            error: Option<string>, decision: Decision)
  {
    var e1 := page.failure(start + [Goto(true)], log);
    var d1 := agents.route(o.AfterFailure(e1, 0));
    if e1.None? then
      h == [Goto(true), Replay(log, true)] && error.None? && decision == Decision(REPLAY, true)
    else if d1.skill != RETRY then
      h == [Goto(true), Replay(log, false)] && error == e1 && decision == d1
    else
      && error == page.failure(start + [Goto(true), Replay(log, false)] + [Goto(true)], log)
      && h == [Goto(true), Replay(log, false)] + [Goto(true), Replay(log, error.None?)]
      && decision == if error.None? then Decision(RETRY, true) else agents.route(o.AfterFailure(error, 1))
  }

  /** How a heal ends whose patch was replayed three times. */
  function HealResult(agents: Agents, o: Options, log: Log, error: Option<string>, d: Decision, ok: seq<bool>): Result {
    var (patched, applied) := agents.heal(log, error);
    var next := agents.route(o.AfterHeal(error));
    if AllPassed(ok) then
      Result(if o.NeedsReview() then FAILED else PASSED, if o.NeedsReview() then log else patched, Some(patched),
             d.(auto := !o.NeedsReview()), !o.NeedsReview(), o.NeedsReview(), false, ok, applied)
    else
      Result(FAILED, log, Some(patched), if next.skill == LLM_HEAL then next else d,
             false, false, next.skill == QUARANTINE, ok, applied)
  }

  /** What becomes of the script then; `later` is what the verification of a patch does to the page. */
  ghost predicate Disposed(agents: Agents, o: Options, log: Log, error: Option<string>, d: Decision,
                           later: seq<Effect>, r: Result)
  {
    if error.None? then later == [] && r == Plain(PASSED, log, d)
    else if d.skill == RULE_HEAL then
      && |r.verification| == VERIFY_N && later == Rounds(agents.heal(log, error).0, r.verification)
      && r == HealResult(agents, o, log, error, d, r.verification)
    else
      later == [] && r == Plain(FAILED, log, d).(quarantined := d.skill == QUARANTINE,
                                                 pendingReview := d.skill == LLM_HEAL && !d.auto)
  }

  /** What a branch that did `later` to the page after the attempts `h` leaves behind. */
  ghost predicate Concluded(agents: Agents, o: Options, log: Log, error: Option<string>, d: Decision, h: seq<Effect>,
                            later: seq<Effect>, out: Outcome)
  {
    var all := h + later;
    && Paced(all) && 0 < |all| <= 2 * (2 + VERIFY_N)
    && (out.Threw? <==> all[|all| - 1] == Goto(false))
    && (out.Finished? ==>
        Sound(log, o.NeedsReview(), all, out.result) && Disposed(agents, o, log, error, d, later, out.result))
  }

  /** The attempts are behind: one or two, all loaded, with the recorded script. */
  predicate Tries(h: seq<Effect>, log: Log) {
    Paced(h) && Goto(false) !in h && (|h| == 2 || |h| == 4) && h[1].Replay? && h[1].log == log
  }

  lemma BrokenLoadConcludes(agents: Agents, o: Options, log: Log, error: Option<string>, d: Decision,
                            h: seq<Effect>, patched: Log, ok: seq<bool>)
    requires Tries(h, log) && |ok| < VERIFY_N
    ensures Concluded(agents, o, log, error, d, h, Rounds(patched, ok) + [Goto(false)], Threw)
  {
    AfterVerifying(h, patched, false, ok);
    assert h + Rounds(patched, ok) + [Goto(false)] == h + (Rounds(patched, ok) + [Goto(false)]);
  }

  lemma HealConcludes(agents: Agents, o: Options, log: Log, error: Option<string>, d: Decision,
                      h: seq<Effect>, ok: seq<bool>)
    requires Tries(h, log) && |ok| == VERIFY_N && error.Some? && d.skill == RULE_HEAL
    ensures Concluded(agents, o, log, error, d, h, Rounds(agents.heal(log, error).0, ok),
                      Finished(HealResult(agents, o, log, error, d, ok)))
  {
    var patched := agents.heal(log, error).0;
    var all := h + Rounds(patched, ok);
    AfterVerifying(h, patched, true, ok);
    assert all + [] == all && all[1] == h[1];
    assert AllPassed(ok) <==> forall i :: 0 <= i < VERIFY_N ==> ok[i];
  }

  /** The RULE_HEAL branch, entered after the attempts `h`. */
  method HealAndVerify(page: Page, agents: Agents, o: Options, actions: Log, error: Option<string>, decision: Decision,
                       ghost h: seq<Effect>) returns (out: Outcome, ghost later: seq<Effect>)
    requires Tries(h, actions) && error.Some? && decision.skill == RULE_HEAL
    modifies page
    ensures page.history == old(page.history) + later
    ensures Concluded(agents, o, actions, error, decision, h, later, out)
  {
    var (patched, applied) := agents.heal(actions, error);
    var loaded, verification := VerifyPatch(page, patched);
    if !loaded {
      later := Rounds(patched, verification) + [Goto(false)];
      BrokenLoadConcludes(agents, o, actions, error, decision, h, patched, verification);
      return Threw, later;
    }
    later := Rounds(patched, verification);
    HealConcludes(agents, o, actions, error, decision, h, verification);
    if !AllPassed(verification) {
      var next := agents.route(o.AfterHeal(error));
      return Finished(Result(FAILED, actions, Some(patched), if next.skill == LLM_HEAL then next else decision,
                             false, false, next.skill == QUARANTINE, verification, applied)), later;
    }
    var review := o.NeedsReview();
    return Finished(Result(if review then FAILED else PASSED,
                           if review then actions else patched,
                           Some(patched), decision.(auto := !review),
                           !review, review, false, verification, applied)), later;
  }

  /** The first one or two attempts: what the page has seen since `start`. */
  lemma Tried(start: seq<Effect>, now: seq<Effect>, log: Log, h: seq<Effect>, loaded: bool, ok: bool)
    returns (h1: seq<Effect>)
    requires Paced(h) && Goto(false) !in h && |h| <= 2 && (h != [] ==> h[1].Replay? && h[1].log == log)
    requires now == start + h + if loaded then [Goto(true), Replay(log, ok)] else [Goto(false)]
    ensures h1 == h + (if loaded then [Goto(true), Replay(log, ok)] else [Goto(false)])
    ensures h1 == now[|start|..] && now == start + h1 && Paced(h1) && 0 < |h1| <= |h| + 2
    ensures h1[|h1| - 1] == if loaded then Replay(log, ok) else Goto(false)
    ensures loaded ==> |h1| == |h| + 2 && Goto(false) !in h1 && h1[1].Replay? && h1[1].log == log
  {
    var more := if loaded then [Goto(true), Replay(log, ok)] else [Goto(false)];
    h1 := h + more;
    assert loaded ==> more[2..] == [];
    PacedAppend(h, more);
    assert now == start + h1;
  }

  /** One attempt with the recorded script, after those that left `h`. */
  method Attempt(page: Page, log: Log, ghost start: seq<Effect>, ghost h: seq<Effect>)
    returns (loaded: bool, error: Option<string>, ghost h1: seq<Effect>)
    requires page.history == start + h && Paced(h) && Goto(false) !in h && |h| <= 2
    requires h != [] ==> h[1].Replay? && h[1].log == log
    modifies page
    ensures page.history == start + h1 && Paced(h1) && 0 < |h1| <= |h| + 2
    ensures h1 == h + if loaded then [Goto(true), Replay(log, error.None?)] else [Goto(false)]
    ensures loaded ==> error == page.failure(start + h + [Goto(true)], log)
    ensures loaded ==> |h1| == |h| + 2 && Goto(false) !in h1 && h1[1].Replay? && h1[1].log == log
  {
    loaded, error := OpenAndReplay(page, log);
    h1 := Tried(start, page.history, log, h, loaded, error.None?);
  }

  /** The attempts before any heal. */
  method ReplayAndRoute(page: Page, agents: Agents, o: Options, actions: Log)
    returns (loaded: bool, error: Option<string>, decision: Decision, ghost h: seq<Effect>)
    modifies page
    ensures page.history == old(page.history) + h && Paced(h) && 0 < |h| <= 4
    ensures !loaded <==> h[|h| - 1] == Goto(false)
    ensures loaded ==> Tries(h, actions) && h[|h| - 1] == Replay(actions, error.None?)
    ensures loaded ==> Attempted(page, agents, o, actions, old(page.history), h, error, decision)
  {
    ghost var start := page.history;
    assert start + [] == start;
    decision := Decision(REPLAY, true);
    loaded, error, h := Attempt(page, actions, start, []);
    if !loaded || error.None? { return; }
    decision := agents.route(o.AfterFailure(error, 0));
    if decision.skill == RETRY {
      assert h == [Goto(true), Replay(actions, false)];
      loaded, error, h := Attempt(page, actions, start, h);
      if !loaded { return; }
      decision := if error.None? then Decision(RETRY, true) else agents.route(o.AfterFailure(error, 1));
    }
  }

  /** The branches after the attempts `h`. */
  method Dispose(page: Page, agents: Agents, o: Options, actions: Log, error: Option<string>, decision: Decision,
                 ghost h: seq<Effect>) returns (out: Outcome, ghost later: seq<Effect>)
    requires Tries(h, actions) && h[|h| - 1] == Replay(actions, error.None?)
    modifies page
    ensures page.history == old(page.history) + later
    ensures Concluded(agents, o, actions, error, decision, h, later, out)
  {
    later := [];
    assert h + later == h;
    if error.None? {
      return Finished(Plain(PASSED, actions, decision)), later;
    }
    if decision.skill == DEFECT || decision.skill == ESCALATE {
      return Finished(Plain(FAILED, actions, decision)), later;
    }
    if decision.skill == QUARANTINE {
      return Finished(Plain(FAILED, actions, decision).(quarantined := true)), later;
    }
    if decision.skill == RULE_HEAL {
      out, later := HealAndVerify(page, agents, o, actions, error, decision, h);
      return;
    }
    return Finished(Plain(FAILED, actions, decision).(
                    pendingReview := decision.skill == LLM_HEAL && !decision.auto)), later;
  }

  /** Some attempts, and what became of the script after them, explain the result. */
  ghost predicate Explained(page: Page, agents: Agents, o: Options, log: Log, start: seq<Effect>, h: seq<Effect>,
                            r: Result)
  {
    exists error, d, n :: 0 <= n <= |h| &&
      Attempted(page, agents, o, log, start, h[..n], error, d) && Disposed(agents, o, log, error, d, h[n..], r)
  }

  predicate SkipsQuarantined(agents: Agents, o: Options, log: Log) {
    o.stability == Some(QUARANTINED) && agents.route(o.AtStart(log != [])).skill == ESCALATE
  }

  /** All that a run of the pipeline promises, given what it did to the page since `start`. */
  ghost predicate Reported(page: Page, agents: Agents, o: Options, log: Log, start: seq<Effect>, h: seq<Effect>,
                           out: Outcome)
  {
    && Paced(h) && |h| <= 2 * (2 + VERIFY_N)
    && (out.Threw? <==> h != [] && h[|h| - 1] == Goto(false))
    && (out.Finished? ==> Sound(log, o.NeedsReview(), h, out.result))
    && (h == [] <==> SkipsQuarantined(agents, o, log))
    && (h == [] ==> out == Finished(Plain(FAILED, log, agents.route(o.AtStart(log != []))).(quarantined := true)))
    && (out.Finished? && h != [] ==> Explained(page, agents, o, log, start, h, out.result))
  }

  lemma DisposedIsReported(page: Page, agents: Agents, o: Options, log: Log, start: seq<Effect>, h: seq<Effect>,
                           later: seq<Effect>, error: Option<string>, d: Decision, out: Outcome)
    requires Attempted(page, agents, o, log, start, h, error, d) && !SkipsQuarantined(agents, o, log)
    requires Concluded(agents, o, log, error, d, h, later, out)
    ensures Reported(page, agents, o, log, start, h + later, out)
  {
    assert (h + later)[..|h|] == h && (h + later)[|h|..] == later;
  }

  lemma BrokenAttemptIsReported(page: Page, agents: Agents, o: Options, log: Log, start: seq<Effect>, h: seq<Effect>)
    requires Paced(h) && 0 < |h| <= 4 && h[|h| - 1] == Goto(false) && !SkipsQuarantined(agents, o, log)
    ensures Reported(page, agents, o, log, start, h, Threw)
  {
  }

  // ---------------------------------------------------------------------------------------
  // The router the pipeline is run with
  // ---------------------------------------------------------------------------------------

  datatype FailureClass = ASSERTION | LOCATOR | TIMEOUT | INFRA | UNKNOWN

  predicate ShouldHeal(c: FailureClass) {
    c == LOCATOR || c == TIMEOUT
  }

  /** `routeQaAgent`; the classification of error texts is arbitrary. */
  function RouteQaAgent(input: RouteInput, classify: string -> FailureClass): Decision {
    if input.stability == Some(QUARANTINED) then Decision(ESCALATE, false)
    else if !input.hasValidScript then Decision(RECORD, true)
    else if input.lastError.None? || input.lastError.value == "" then Decision(REPLAY, true)
    else
      var c := classify(input.lastError.value);
      if input.retryCount < 1 && (c == TIMEOUT || c == INFRA) then Decision(RETRY, true)
      else if c == ASSERTION then Decision(DEFECT, false)
      else if !ShouldHeal(c) then Decision(ESCALATE, false)
      else if input.healAttempts >= 2 then Decision(QUARANTINE, true)
      else if input.healAttempts == 0 then Decision(RULE_HEAL, true)
      else Decision(LLM_HEAL, !input.llmHealRequiresApproval)
  }

  /**
   With this router a failed verification never quarantines: a rule heal is tried only with no
   heal behind it, and one failure does not make two.
   */
  lemma FailedVerificationNeverQuarantines(classify: string -> FailureClass, o: Options, error: Option<string>,
                                           retries: nat)
    requires RouteQaAgent(o.AfterFailure(error, retries), classify).skill == RULE_HEAL
    ensures o.healAttempts == 0
    ensures RouteQaAgent(o.AfterHeal(error), classify).skill == LLM_HEAL
  {
  }

  /** Assertion failures are never healed: neither retried into a heal nor patched. */
  lemma AssertionsAreDefects(classify: string -> FailureClass, input: RouteInput)
    requires input.hasValidScript && input.stability != Some(QUARANTINED)
    requires input.lastError.Some? && input.lastError.value != ""
    ensures RouteQaAgent(input, classify).skill == DEFECT <==> classify(input.lastError.value) == ASSERTION
  {
  }

  /** The pipeline is run with this router. */
  ghost predicate Shipped(agents: Agents, classify: string -> FailureClass) {
    forall i :: agents.route(i) == RouteQaAgent(i, classify)
  }

  /** The class of a failed replay's error; a blank error has none. */
  function ClassOf(error: Option<string>, classify: string -> FailureClass): Option<FailureClass> {
    if error.Some? && error.value != "" then Some(classify(error.value)) else None
  }

  predicate Transient(c: Option<FailureClass>) {
    c == Some(TIMEOUT) || c == Some(INFRA)
  }

  predicate Healable(c: Option<FailureClass>) {
    c == Some(LOCATOR) || c == Some(TIMEOUT)
  }

  /**
   What becomes of a script whose last attempt ended with `error`, of class `c`: healed by rule if
   no heal is behind it, offered to the LLM healer after one, quarantined after two.
   */
  predicate ByTheTable(heal: (Log, Option<string>) -> (Log, seq<string>), o: Options, log: Log, retried: bool,
                       error: Option<string>, c: Option<FailureClass>, r: Result)
  {
    var review := o.healRequiresReview || o.isP0;
    var patch := Healable(c) && o.healAttempts == 0;
    && r.patched == (if patch then Some(heal(log, error).0) else None)
    && |r.verification| == (if patch then 3 else 0)
    && r.applied == (if patch then heal(log, error).1 else [])
    && (r.committed <==> patch && AllPassed(r.verification) && !review)
    && (r.pendingReview <==> (patch && AllPassed(r.verification) && review) ||
                             (Healable(c) && o.healAttempts == 1 && o.llmHealRequiresApproval))
    && (r.quarantined <==> Healable(c) && o.healAttempts >= 2)
    && (r.verdict == PASSED <==> error.None? || r.committed)
    && r.actions == (if r.committed then heal(log, error).0 else log)
    && r.decision.skill == match c {
         case None => if error.None? && retried then RETRY else REPLAY
         case Some(ASSERTION) => DEFECT
         case Some(INFRA) => ESCALATE
         case Some(UNKNOWN) => ESCALATE
         case Some(_) => if o.healAttempts >= 2 then QUARANTINE
                         else if patch && AllPassed(r.verification) then RULE_HEAL
                         else LLM_HEAL
       }
    && (r.decision.auto <==> c.None? || r.quarantined || r.committed ||
                             (Healable(c) && !o.llmHealRequiresApproval && r.decision.skill == LLM_HEAL))
  }

  /** The error of the second replay if the first one's is transient, and else of the first. */
  function LastError(page: Page, classify: string -> FailureClass, log: Log, start: seq<Effect>): Option<string> {
    var first := page.failure(start + [Goto(true)], log);
    if Transient(ClassOf(first, classify))
    then page.failure(start + [Goto(true), Replay(log, false), Goto(true)], log)
    else first
  }

  /**
   The whole run, from the errors the page gives: the first replay's error decides whether there is
   a second, the last one's what becomes of the script.
   */
  ghost predicate Routed(page: Page, agents: Agents, classify: string -> FailureClass, o: Options, log: Log,
                         start: seq<Effect>, h: seq<Effect>, r: Result)
  {
    var retried := Transient(ClassOf(page.failure(start + [Goto(true)], log), classify));
    var last := LastError(page, classify, log, start);
    && (h == [] <==> o.stability == Some(QUARANTINED))
    && (h == [] ==> r == Plain(FAILED, log, Decision(ESCALATE, false)).(quarantined := true))
    && (h != [] ==> ByTheTable(agents.heal, o, log, retried, last, ClassOf(last, classify), r) &&
                    |h| == (if retried then 4 else 2) + 2 * |r.verification|)
  }

  /** What the attempts end with. */
  predicate Decided(o: Options, retried: bool, error: Option<string>, c: Option<FailureClass>, d: Decision) {
    && (error.None? ==> d == Decision(if retried then RETRY else REPLAY, true))
    && (error == Some("") ==> d == Decision(REPLAY, true))
    && (c == Some(ASSERTION) ==> d == Decision(DEFECT, false))
    && (c == Some(INFRA) || c == Some(UNKNOWN) ==> d == Decision(ESCALATE, false))
    && (Healable(c) ==> d == if o.healAttempts >= 2 then Decision(QUARANTINE, true)
                             else if o.healAttempts == 0 then Decision(RULE_HEAL, true)
                             else Decision(LLM_HEAL, !o.llmHealRequiresApproval))
  }

  /** The attempts as the errors of the page decide them. */
  lemma AttemptsByClass(page: Page, agents: Agents, classify: string -> FailureClass, o: Options, log: Log,
                        start: seq<Effect>, h: seq<Effect>, error: Option<string>, d: Decision)
    requires Shipped(agents, classify) && Attempted(page, agents, o, log, start, h, error, d)
    ensures var first := page.failure(start + [Goto(true)], log);
            var retried := Transient(ClassOf(first, classify));
            && error == LastError(page, classify, log, start)
            && |h| == (if retried then 4 else 2)
            && Decided(o, retried, error, ClassOf(error, classify), d)
  {
    assert start + [Goto(true), Replay(log, false)] + [Goto(true)] ==
           start + [Goto(true), Replay(log, false), Goto(true)];
  }

  lemma HealedByTheTable(agents: Agents, classify: string -> FailureClass, o: Options, log: Log, retried: bool,
                         error: Option<string>, ok: seq<bool>)
    requires Shipped(agents, classify) && Healable(ClassOf(error, classify)) && o.healAttempts == 0
    requires |ok| == VERIFY_N
    ensures ByTheTable(agents.heal, o, log, retried, error, ClassOf(error, classify),
                       HealResult(agents, o, log, error, Decision(RULE_HEAL, true), ok))
  {
    var next := agents.route(o.AfterHeal(error));
    assert next == RouteQaAgent(o.AfterHeal(error), classify) == Decision(LLM_HEAL, !o.llmHealRequiresApproval);
  }

  lemma DisposedByTheTable(agents: Agents, classify: string -> FailureClass, o: Options, log: Log, retried: bool,
                           error: Option<string>, d: Decision, later: seq<Effect>, r: Result)
    requires Shipped(agents, classify) && Disposed(agents, o, log, error, d, later, r)
    requires Decided(o, retried, error, ClassOf(error, classify), d)
    ensures ByTheTable(agents.heal, o, log, retried, error, ClassOf(error, classify), r)
    ensures |later| == 2 * |r.verification|
  {
    if error.Some? && d.skill == RULE_HEAL {
      HealedByTheTable(agents, classify, o, log, retried, error, r.verification);
    }
  }

  /** With the shipped router and any classifier, every run goes by the table, and no failed run ends with a retry. */
  lemma RunsByTheTable(page: Page, agents: Agents, classify: string -> FailureClass, o: Options, log: Log,
                       start: seq<Effect>, h: seq<Effect>, r: Result)
    requires Shipped(agents, classify) && Reported(page, agents, o, log, start, h, Finished(r))
    ensures Routed(page, agents, classify, o, log, start, h, r)
    ensures r.verdict == FAILED ==> r.decision.skill != RETRY
  {
    assert agents.route(o.AtStart(log != [])) == RouteQaAgent(o.AtStart(log != []), classify);
    if h != [] {
      var error, d, n :| 0 <= n <= |h| && Attempted(page, agents, o, log, start, h[..n], error, d) &&
                         Disposed(agents, o, log, error, d, h[n..], r);
      AttemptsByClass(page, agents, classify, o, log, start, h[..n], error, d);
      var first := page.failure(start + [Goto(true)], log);
      DisposedByTheTable(agents, classify, o, log, Transient(ClassOf(first, classify)), error, d, h[n..], r);
    }
  }

  lemma EveryClassifier(page: Page, agents: Agents, o: Options, log: Log, start: seq<Effect>, h: seq<Effect>,
                        out: Outcome)
    requires Reported(page, agents, o, log, start, h, out)
    ensures forall classify :: Shipped(agents, classify) && out.Finished? ==>
              Routed(page, agents, classify, o, log, start, h, out.result)
  {
    forall classify | Shipped(agents, classify) && out.Finished?
      ensures Routed(page, agents, classify, o, log, start, h, out.result)
    {
      RunsByTheTable(page, agents, classify, o, log, start, h, out.result);
    }
  }

  // ---------------------------------------------------------------------------------------
  // The pipeline
  // ---------------------------------------------------------------------------------------

  /** `runFailurePipeline` */
  method RunFailurePipeline(page: Page, agents: Agents, o: Options, actions: Log) returns (out: Outcome)
    modifies page
    ensures old(page.history) <= page.history
    ensures Reported(page, agents, o, actions, old(page.history), page.history[|old(page.history)|..], out)
    ensures forall classify :: Shipped(agents, classify) && out.Finished? ==>
              Routed(page, agents, classify, o, actions, old(page.history), page.history[|old(page.history)|..],
                     out.result)
  {
    ghost var start := page.history;
    var base := agents.route(o.AtStart(actions != []));
    if base.skill == ESCALATE && o.stability == Some(QUARANTINED) {
      assert page.history[|start|..] == [];
      out := Finished(Plain(FAILED, actions, base).(quarantined := true));
      EveryClassifier(page, agents, o, actions, start, [], out);
      return;
    }
    var loaded, error, decision;
    ghost var h, later;
    loaded, error, decision, h := ReplayAndRoute(page, agents, o, actions);
    if !loaded {
      BrokenAttemptIsReported(page, agents, o, actions, start, h);
      assert page.history[|start|..] == h;
      return Threw;
    }
    out, later := Dispose(page, agents, o, actions, error, decision, h);
    DisposedIsReported(page, agents, o, actions, start, h, later, error, decision, out);
    assert page.history[|start|..] == h + later;
    EveryClassifier(page, agents, o, actions, start, h + later, out);
  }
}
