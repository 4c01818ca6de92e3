/**
 The human gates of one STLC execution after login. The worker walks login (wait 0), then the
 execution, defect, automation, report and sign-off gates (waits 1 to 5), pausing at each in
 `waitForContinueSignal`; the API approves a gate by checking the status, stamping and
 publishing a continue. Worker, API and Redis interleave step by step.
 */
module GateProtocol {
  import opened Common
  import opened ContinueWait

  datatype Status =
    | RUNNING
    | AWAITING_CLARIFICATION
    | AWAITING_PLAN_APPROVAL
    | AWAITING_DESIGN_APPROVAL
    | AWAITING_ENV_APPROVAL
    | AWAITING_DATA_APPROVAL
    | AWAITING_LOGIN
    | AWAITING_EXECUTION_APPROVAL
    | AWAITING_DEFECT_APPROVAL
    | AWAITING_REGRESSION_APPROVAL
    | AWAITING_AUTOMATION_APPROVAL
    | AWAITING_REPORT_APPROVAL
    | AWAITING_QA_SIGNOFF
    | COMPLETED
    | CANCELLED
    | FAILED

  const LOGIN: nat := 0
  const SIGNOFF: nat := 5
  const NONE: nat := 6

  /** The status the worker writes before wait `g`. */
  function AwaitingStatus(g: nat): Status
    requires g <= SIGNOFF
  {
    if g == 0 then AWAITING_LOGIN
    else if g == 1 then AWAITING_EXECUTION_APPROVAL
    else if g == 2 then AWAITING_DEFECT_APPROVAL
    else if g == 3 then AWAITING_AUTOMATION_APPROVAL
    else if g == 4 then AWAITING_REPORT_APPROVAL
    else AWAITING_QA_SIGNOFF
  }

  predicate PreLoginStatus(s: Status) {
    s == RUNNING || s == AWAITING_CLARIFICATION || s == AWAITING_DESIGN_APPROVAL ||
    s == AWAITING_ENV_APPROVAL || s == AWAITING_DATA_APPROVAL
  }

  /** Where the worker is. `Working(g)` does the phase work that leads to wait `g`. */
  datatype Pc =
    | PreLogin
    | Working(gate: nat)
    | Announced(gate: nat)
    | InWait(gate: nat)
    | After(gate: nat)
    | Ended

  /**
   `approved` and `passed` record the gates approved, and the waits passed, in this execution;
   `unsent` counts the publishes whose flag is set and whose message is still to be sent.
   */
  datatype State = State(net: Net, pc: Pc, status: Status, approved: set<nat>, passed: set<nat>, unsent: nat)

  /**
   A publish is one step in `Approve` and `ContinueAfterLogin`. Their twins `...InTwo` stop after
   setting the flag, and `SendRest` sends a message that is due at any later moment.
   */
  datatype Action =
    | PreLoginWrite(status: Status)
    | Announce
    | AnnounceAgain
    | EnterWait
    | WaitEvent(event: Event)
    | LeaveWait
    | Resume
    | WorkWrite
    | Crash
    | ApprovePreLogin
    | Approve(gate: nat)
    | ApproveInTwo(gate: nat)
    | ApproveUnusedGate(publish: bool)
    | ContinueAfterLogin
    | ContinueInTwo
    | SendRest
    | Cancel
    | Expire(event: Event)

  const START := State(Net(false, false, Idle), PreLogin, RUNNING, {}, {}, 0)

  predicate WorkerEvent(e: Event) {
    e == EntryReply || e == Subscribe || e == PollCancelKey || e == PollContinueKey ||
    e == ReplyArrives || e == MessageArrives || e == TimerFires || e == SubscribeFails
  }

  predicate CanDo(s: State, a: Action) {
    match a
    case PreLoginWrite(st) => s.pc.PreLogin? && PreLoginStatus(st)
    case Announce => s.pc.PreLogin? || (s.pc.Working? && s.pc.gate <= SIGNOFF)
    case AnnounceAgain => s.pc == Announced(LOGIN)
    case EnterWait => s.pc.Announced? && Enabled(s.net, Enter)
    case WaitEvent(e) => s.pc.InWait? && WorkerEvent(e) && Enabled(s.net, e)
    case LeaveWait => s.pc.InWait? && OutcomeOf(s.net.wait).Some?
    case Resume => s.pc.After?
    case WorkWrite => s.pc.Working?
    case Crash => !s.pc.Ended?
    case ApprovePreLogin => PreLoginStatus(s.status) && s.status != RUNNING
    case Approve(g) => 1 <= g <= SIGNOFF && s.status == AwaitingStatus(g)
    case ApproveInTwo(g) => 1 <= g <= SIGNOFF && s.status == AwaitingStatus(g)
    case ApproveUnusedGate(_) => s.status == AWAITING_PLAN_APPROVAL || s.status == AWAITING_REGRESSION_APPROVAL
    case ContinueAfterLogin => s.status == AWAITING_LOGIN || s.status == RUNNING
    case ContinueInTwo => s.status == AWAITING_LOGIN || s.status == RUNNING
    case SendRest => s.unsent > 0
    case Cancel => s.status != COMPLETED && s.status != CANCELLED
    case Expire(e) => (e == ContinueExpires || e == CancelExpires) && Enabled(s.net, e)
  }

  function Next(s: State, a: Action): State
    requires CanDo(s, a)
  {
    match a
    case PreLoginWrite(st) => s.(status := st)
    case Announce =>
      var g := if s.pc.PreLogin? then LOGIN else s.pc.gate;
      s.(pc := Announced(g), status := AwaitingStatus(g))
    case AnnounceAgain => s.(status := AWAITING_LOGIN)
    case EnterWait => s.(pc := InWait(s.pc.gate), net := Step(s.net, Enter))
    case WaitEvent(e) => s.(net := Step(s.net, e))
    case LeaveWait =>
      var o := OutcomeOf(s.net.wait).value;
      var net := Step(s.net, Return);
      if o == Released then s.(net := net, pc := After(s.pc.gate), passed := s.passed + {s.pc.gate})
      else s.(net := net, pc := Ended, status := if o == Cancelled then CANCELLED else FAILED)
    case Resume =>
      if s.pc.gate < SIGNOFF then s.(pc := Working(s.pc.gate + 1), status := RUNNING)
      else s.(pc := Ended, status := COMPLETED)
    case WorkWrite => s.(status := RUNNING)
    case Crash => s.(net := s.net.(wait := Idle), pc := Ended, status := FAILED)
    case ApprovePreLogin => s.(status := RUNNING)
    case Approve(g) =>
      s.(status := RUNNING, approved := s.approved + {g}, net := Step(s.net, PublishContinue))
    case ApproveInTwo(g) =>
      s.(status := RUNNING, approved := s.approved + {g}, net := Step(s.net, SetContinue), unsent := s.unsent + 1)
    case ApproveUnusedGate(publish) =>
      s.(status := RUNNING, net := if publish then Step(s.net, PublishContinue) else s.net)
    case ContinueAfterLogin =>
      s.(status := RUNNING, net := Step(s.net, PublishContinue))
    case ContinueInTwo =>
      s.(status := RUNNING, net := Step(s.net, SetContinue), unsent := s.unsent + 1)
    case SendRest => s.(net := Step(s.net, SendContinue), unsent := s.unsent - 1)
    case Cancel => s.(status := CANCELLED, net := Step(s.net, PublishCancel))
    case Expire(e) => s.(net := Step(s.net, e))
  }

  // ---------------------------------------------------------------------------------------
  // Which wait a continue published now would release
  // ---------------------------------------------------------------------------------------

  /** The wait has been given its release although it has not returned yet. */
  predicate Earned(w: Wait) {
    EntryHit(w) || OutcomeOf(w) == Some(Released)
  }

  /** The wait that a continue flag set in this state would release. */
  function NextWait(s: State): nat {
    match s.pc
    case PreLogin => LOGIN
    case Working(g) => g
    case Announced(g) => g
    case InWait(g) =>
      if Earned(s.net.wait) then g + 1 else if OutcomeOf(s.net.wait).Some? then NONE else g
    case After(g) => g + 1
    case Ended => NONE
  }

  /** The gate needs no approval, or has it. */
  predicate Allowed(s: State, g: nat) {
    g == LOGIN || g >= NONE || g in s.approved
  }

  /**
   A continue is harmless when the wait it will release is the login wait, one whose gate is
   already approved, or none: that is, when it is pressed before the login wait has been released.
   */
  predicate Harmless(s: State) {
    Allowed(s, NextWait(s))
  }

  /** A message that is sent late is harmless when the wait that hears it may be released. */
  predicate HarmlessSend(s: State) {
    LateSend(s.net) ==> Allowed(s, NextWait(s))
  }

  predicate IsContinue(a: Action) {
    a.ContinueAfterLogin? || a.ContinueInTwo?
  }

  predicate InGoodTime(s: State, a: Action) {
    (IsContinue(a) ==> Harmless(s)) && (a.SendRest? ==> HarmlessSend(s))
  }

  /** Every gate passed in this execution was approved in this execution. */
  predicate Safe(s: State) {
    forall g :: g in s.passed && g != LOGIN ==> g in s.approved
  }

  ghost predicate RunsTo(s: State, acts: seq<Action>, t: State)
    decreases |acts|
  {
    if acts == [] then s == t
    else CanDo(s, acts[0]) && RunsTo(Next(s, acts[0]), acts[1..], t)
  }

  /** Every `continueAfterLogin` is accepted, and every message apart from its flag is sent, in a harmless state. */
  ghost predicate HarmlessRun(s: State, acts: seq<Action>)
    decreases |acts|
  {
    acts == [] || !CanDo(s, acts[0]) ||
    (InGoodTime(s, acts[0]) && HarmlessRun(Next(s, acts[0]), acts[1..]))
  }

  // ---------------------------------------------------------------------------------------
  // The invariant
  // ---------------------------------------------------------------------------------------

  predicate Shape(s: State) {
    && (s.pc.InWait? <==> !s.net.wait.Idle?)
    && (s.pc.Working? ==> 1 <= s.pc.gate <= SIGNOFF)
    && (s.pc.Announced? || s.pc.InWait? || s.pc.After? ==> s.pc.gate <= SIGNOFF)
  }

  /** The last gate whose pause has been announced, counting login as 0 and before it as none. */
  function Reached(pc: Pc): int {
    match pc
    case PreLogin => -1
    case Working(g) => g - 1
    case Announced(g) => g
    case InWait(g) => g
    case After(g) => g
    case Ended => SIGNOFF
  }

  predicate TokenAllowed(s: State) {
    s.net.continueFlag || EvidenceInFlight(s.net.wait) ==> Allowed(s, NextWait(s))
  }

  predicate EarnedAllowed(s: State) {
    && (s.pc.InWait? && Earned(s.net.wait) ==> Allowed(s, s.pc.gate))
    && (s.pc.After? ==> Allowed(s, s.pc.gate))
  }

  predicate StatusAgrees(s: State) {
    && s.status != AWAITING_PLAN_APPROVAL && s.status != AWAITING_REGRESSION_APPROVAL
    && (forall g :: g in s.approved ==> 1 <= g <= SIGNOFF && g <= Reached(s.pc) && s.status != AwaitingStatus(g))
    && (forall g :: 1 <= g <= SIGNOFF && s.status == AwaitingStatus(g) ==>
          s.pc == Announced(g) || s.pc == InWait(g))
    && ((s.pc.Announced? || s.pc.InWait?) && !Allowed(s, s.pc.gate) ==>
          s.status == AwaitingStatus(s.pc.gate) || s.status == CANCELLED)
  }

  predicate Inv(s: State) {
    Shape(s) && TokenAllowed(s) && EarnedAllowed(s) && StatusAgrees(s) && Safe(s)
  }

  // ---------------------------------------------------------------------------------------
  // It is kept by every step
  // ---------------------------------------------------------------------------------------

  predicate HasToken(n: Net) {
    n.continueFlag || EvidenceInFlight(n.wait)
  }

  /** The wait's own steps only move or use up a token, and earning a release uses it up. */
  lemma WaitEventFacts(n: Net, e: Event)
    requires WorkerEvent(e) && Enabled(n, e) && !n.wait.Idle?
    ensures var m := Step(n, e);
            && !m.wait.Idle?
            && (HasToken(m) ==> HasToken(n))
            && (Earned(n.wait) ==> Earned(m.wait))
            && (Earned(m.wait) && !Earned(n.wait) ==> HasToken(n) && !HasToken(m) && OutcomeOf(n.wait).None?)
            && (OutcomeOf(n.wait).Some? ==> OutcomeOf(m.wait) == OutcomeOf(n.wait))
  {
    match e {
      case ReplyArrives =>
        assert n.wait.replies == [n.wait.replies[0]] + n.wait.replies[1..];
      case MessageArrives =>
        assert n.wait.inbox == [n.wait.inbox[0]] + n.wait.inbox[1..];
      case _ =>
    }
  }

  /** What the API and Redis do to the keys and the inbox leaves the wait's progress alone. */
  lemma OutsideEventFacts(n: Net, e: Event)
    requires Enabled(n, e)
    requires OutsideEvent(e)
    ensures var m := Step(n, e);
            && (m.wait.Idle? <==> n.wait.Idle?)
            && (Earned(m.wait) <==> Earned(n.wait))
            && OutcomeOf(m.wait) == OutcomeOf(n.wait)
            && (e != PublishContinue && e != SetContinue && !(e == SendContinue && LateSend(n)) ==>
                (HasToken(m) ==> HasToken(n)))
  {
  }

  predicate OutsideEvent(e: Event) {
    e == PublishContinue || e == SetContinue || e == SendContinue || e == PublishCancel || e == ContinueExpires ||
    e == CancelExpires
  }

  predicate WaitAction(a: Action) {
    a.EnterWait? || a.WaitEvent? || a.LeaveWait?
  }

  predicate ApiAction(a: Action) {
    a.ApprovePreLogin? || a.Approve? || a.ApproveInTwo? || a.ApproveUnusedGate? || IsContinue(a) || a.SendRest? ||
    a.Cancel? || a.Expire?
  }

  lemma InvWait(s: State, a: Action)
    requires Inv(s) && CanDo(s, a) && WaitAction(a)
    ensures Inv(Next(s, a))
  {
    match a {
      case WaitEvent(e) =>
        WaitEventFacts(s.net, e);
        var t := Next(s, a);
        assert t.pc == s.pc && t.approved == s.approved && t.status == s.status && t.passed == s.passed;
        assert TokenAllowed(t);
      case _ =>
    }
  }

  lemma InvWorker(s: State, a: Action)
    requires Inv(s) && CanDo(s, a) && !WaitAction(a) && !ApiAction(a)
    ensures Inv(Next(s, a))
  {
    var t := Next(s, a);
    assert t.approved == s.approved && t.passed == s.passed;
    assert Shape(t);
    assert TokenAllowed(t);
    assert StatusAgrees(t);
  }

  lemma InvApprove(s: State, a: Action)
    requires Inv(s) && CanDo(s, a) && (a.Approve? || a.ApproveInTwo?)
    ensures Inv(Next(s, a))
  {
    OutsideEventFacts(s.net, if a.Approve? then PublishContinue else SetContinue);
    var t := Next(s, a);
    assert NextWait(t) == NextWait(s) && s.approved <= t.approved;
    assert Shape(t) && EarnedAllowed(t) && TokenAllowed(t) && StatusAgrees(t);
  }

  lemma InvPublish(s: State, a: Action)
    requires Inv(s) && CanDo(s, a) && InGoodTime(s, a) && (IsContinue(a) || a.SendRest?)
    ensures Inv(Next(s, a))
  {
    OutsideEventFacts(s.net, if a.SendRest? then SendContinue
                             else if a.ContinueInTwo? then SetContinue else PublishContinue);
    var t := Next(s, a);
    assert NextWait(t) == NextWait(s) && s.approved == t.approved;
    assert Shape(t) && EarnedAllowed(t) && TokenAllowed(t) && StatusAgrees(t);
  }

  lemma InvCancel(s: State)
    requires Inv(s) && CanDo(s, Cancel)
    ensures Inv(Next(s, Cancel))
  {
    OutsideEventFacts(s.net, PublishCancel);
    var t := Next(s, Cancel);
    assert NextWait(t) == NextWait(s);
    assert Shape(t) && EarnedAllowed(t) && TokenAllowed(t) && StatusAgrees(t);
  }

  lemma InvExpire(s: State, e: Event)
    requires Inv(s) && CanDo(s, Expire(e))
    ensures Inv(Next(s, Expire(e)))
  {
    OutsideEventFacts(s.net, e);
    var t := Next(s, Expire(e));
    assert NextWait(t) == NextWait(s);
    assert Shape(t) && EarnedAllowed(t) && TokenAllowed(t) && StatusAgrees(t);
  }

  lemma InvApi(s: State, a: Action)
    requires Inv(s) && CanDo(s, a) && InGoodTime(s, a) && ApiAction(a)
    ensures Inv(Next(s, a))
  {
    if a.Approve? || a.ApproveInTwo? {
      InvApprove(s, a);
    } else if IsContinue(a) || a.SendRest? {
      InvPublish(s, a);
    } else if a.Cancel? {
      InvCancel(s);
    } else if a.Expire? {
      InvExpire(s, a.event);
    }
  }

  lemma InvStep(s: State, a: Action)
    requires Inv(s) && CanDo(s, a) && InGoodTime(s, a)
    ensures Inv(Next(s, a))
  {
    if WaitAction(a) {
      InvWait(s, a);
    } else if ApiAction(a) {
      InvApi(s, a);
    } else {
      InvWorker(s, a);
    }
  }

  // ---------------------------------------------------------------------------------------
  // Safety over whole runs
  // ---------------------------------------------------------------------------------------

  lemma {:induction false} InvRun(s: State, acts: seq<Action>, t: State)
    requires Inv(s) && RunsTo(s, acts, t) && HarmlessRun(s, acts)
    ensures Inv(t)
    decreases |acts|
  {
    if acts != [] {
      InvStep(s, acts[0]);
      InvRun(Next(s, acts[0]), acts[1..], t);
    }
  }

  /** In a run whose continues are harmless, the worker passes no gate that was not approved. */
  lemma GatesNeedApproval(acts: seq<Action>, t: State)
    requires RunsTo(START, acts, t) && HarmlessRun(START, acts)
    ensures Safe(t)
  {
    InvRun(START, acts, t);
  }

  /** The worker passes the waits in order and completes only after the last one. */
  predicate Walked(s: State) {
    && (s.pc.Working? || s.pc.Announced? || s.pc.InWait? ==> forall g :: 0 <= g < s.pc.gate ==> g in s.passed)
    && (s.pc.After? ==> forall g :: 0 <= g <= s.pc.gate ==> g in s.passed)
    && (s.status == COMPLETED ==> s.pc.Ended? && forall g :: 0 <= g <= SIGNOFF ==> g in s.passed)
  }

  lemma WalkedStep(s: State, a: Action)
    requires Walked(s) && Shape(s) && CanDo(s, a)
    ensures Walked(Next(s, a)) && Shape(Next(s, a))
  {
  }

  lemma {:induction false} WalkedRun(s: State, acts: seq<Action>, t: State)
    requires Walked(s) && Shape(s) && RunsTo(s, acts, t)
    ensures Walked(t)
    decreases |acts|
  {
    if acts != [] {
      WalkedStep(s, acts[0]);
      WalkedRun(Next(s, acts[0]), acts[1..], t);
    }
  }

  /** In such a run a completed execution had all five gates after login approved. */
  lemma CompletedMeansApproved(acts: seq<Action>, t: State)
    requires RunsTo(START, acts, t) && HarmlessRun(START, acts) && t.status == COMPLETED
    ensures forall g :: 1 <= g <= SIGNOFF ==> g in t.approved
  {
    GatesNeedApproval(acts, t);
    WalkedRun(START, acts, t);
  }

  // ---------------------------------------------------------------------------------------
  // Building runs
  // ---------------------------------------------------------------------------------------

  function ContinuesIn(acts: seq<Action>): nat {
    if acts == [] then 0 else (if IsContinue(acts[0]) then 1 else 0) + ContinuesIn(acts[1..])
  }

  /** Every continue of the run is accepted while the execution shows AWAITING_LOGIN. */
  ghost predicate ContinuesOnlyAtLogin(s: State, acts: seq<Action>)
    decreases |acts|
  {
    acts == [] || !CanDo(s, acts[0]) ||
    ((IsContinue(acts[0]) ==> s.status == AWAITING_LOGIN) && ContinuesOnlyAtLogin(Next(s, acts[0]), acts[1..]))
  }

  ghost predicate NoExpiry(acts: seq<Action>) {
    forall a :: a in acts ==> !a.Expire?
  }

  /** A run without continues and without messages sent apart: nothing in it can be harmful. */
  ghost predicate Quiet(s: State, acts: seq<Action>, t: State)
    decreases |acts|
  {
    if acts == [] then s == t
    else CanDo(s, acts[0]) && !IsContinue(acts[0]) && !acts[0].SendRest? && Quiet(Next(s, acts[0]), acts[1..], t)
  }

  lemma Prepend(s: State, a: Action, s1: State, acts: seq<Action>, t: State)
    requires CanDo(s, a) && s1 == Next(s, a) && RunsTo(s1, acts, t)
    ensures RunsTo(s, [a] + acts, t)
    ensures HarmlessRun(s1, acts) && InGoodTime(s, a) ==> HarmlessRun(s, [a] + acts)
    ensures ContinuesIn([a] + acts) == (if IsContinue(a) then 1 else 0) + ContinuesIn(acts)
    ensures ContinuesOnlyAtLogin(s1, acts) && (IsContinue(a) ==> s.status == AWAITING_LOGIN) ==>
              ContinuesOnlyAtLogin(s, [a] + acts)
  {
    assert ([a] + acts)[1..] == acts;
  }

  lemma {:induction false} QuietThen(s: State, quiet: seq<Action>, t: State, acts: seq<Action>, u: State)
    requires Quiet(s, quiet, t) && RunsTo(t, acts, u)
    ensures RunsTo(s, quiet + acts, u) && ContinuesIn(quiet + acts) == ContinuesIn(acts)
    ensures HarmlessRun(t, acts) ==> HarmlessRun(s, quiet + acts)
    ensures ContinuesOnlyAtLogin(t, acts) ==> ContinuesOnlyAtLogin(s, quiet + acts)
    decreases |quiet|
  {
    if quiet == [] {
      assert quiet + acts == acts;
    } else {
      assert quiet + acts == [quiet[0]] + (quiet[1..] + acts);
      QuietThen(Next(s, quiet[0]), quiet[1..], t, acts, u);
      Prepend(s, quiet[0], Next(s, quiet[0]), quiet[1..] + acts, u);
    }
  }

  /** A quiet run as it is. */
  lemma QuietRun(s: State, quiet: seq<Action>, t: State)
    requires Quiet(s, quiet, t)
    ensures RunsTo(s, quiet, t) && HarmlessRun(s, quiet) && ContinuesOnlyAtLogin(s, quiet) && ContinuesIn(quiet) == 0
  {
    QuietThen(s, quiet, t, [], t);
    assert quiet + [] == quiet;
  }

  lemma {:induction false} QuietTwice(s: State, first: seq<Action>, t: State, second: seq<Action>, u: State)
    requires Quiet(s, first, t) && Quiet(t, second, u)
    ensures Quiet(s, first + second, u)
    decreases |first|
  {
    if first == [] {
      assert first + second == second;
    } else {
      assert (first + second)[1..] == first[1..] + second;
      QuietTwice(Next(s, first[0]), first[1..], t, second, u);
    }
  }

  lemma QuietStep(s: State, a: Action, acts: seq<Action>, t: State)
    requires CanDo(s, a) && !IsContinue(a) && !a.SendRest? && Quiet(Next(s, a), acts, t)
    ensures Quiet(s, [a] + acts, t)
  {
    assert ([a] + acts)[1..] == acts;
  }

  /** A continue flag set before the wait is entered releases it. */
  lemma FlagReleases(s: State) returns (acts: seq<Action>, t: State)
    requires s.pc.Announced? && s.net == Net(true, false, Idle)
    ensures Quiet(s, acts, t)
    ensures t == s.(pc := After(s.pc.gate), net := Net(false, false, Idle), passed := s.passed + {s.pc.gate})
  {
    var s1 := Next(s, EnterWait);
    var s2 := Next(s1, WaitEvent(EntryReply));
    var s3 := Next(s2, WaitEvent(EntryReply));
    assert s3.net.wait == Done(Released);
    t := Next(s3, LeaveWait);
    acts := [];
    QuietStep(s3, LeaveWait, acts, t);
    acts := [LeaveWait] + acts;
    QuietStep(s2, WaitEvent(EntryReply), acts, t);
    acts := [WaitEvent(EntryReply)] + acts;
    QuietStep(s1, WaitEvent(EntryReply), acts, t);
    acts := [WaitEvent(EntryReply)] + acts;
    QuietStep(s, EnterWait, acts, t);
    acts := [EnterWait] + acts;
  }

  /** Without a flag the worker ends up listening. */
  lemma Listens(s: State) returns (acts: seq<Action>, t: State)
    requires s.pc.Announced? && s.net == Net(false, false, Idle)
    ensures Quiet(s, acts, t)
    ensures t == s.(pc := InWait(s.pc.gate), net := Net(false, false, Listening(None, true, false, [], [])))
    ensures NoExpiry(acts)
  {
    var s1 := Next(s, EnterWait);
    var s2 := Next(s1, WaitEvent(EntryReply));
    var s3 := Next(s2, WaitEvent(EntryReply));
    t := Next(s3, WaitEvent(Subscribe));
    acts := [];
    QuietStep(s3, WaitEvent(Subscribe), acts, t);
    acts := [WaitEvent(Subscribe)] + acts;
    QuietStep(s2, WaitEvent(EntryReply), acts, t);
    acts := [WaitEvent(EntryReply)] + acts;
    QuietStep(s1, WaitEvent(EntryReply), acts, t);
    acts := [WaitEvent(EntryReply)] + acts;
    QuietStep(s, EnterWait, acts, t);
    acts := [EnterWait] + acts;
  }

  /** A flag set while the worker listens releases it at the next poll. */
  lemma PollReleases(s: State) returns (acts: seq<Action>, t: State)
    requires s.pc.InWait? && s.net == Net(true, false, Listening(None, true, false, [], []))
    ensures Quiet(s, acts, t)
    ensures t == s.(pc := After(s.pc.gate), net := Net(false, false, Idle), passed := s.passed + {s.pc.gate})
  {
    var s1 := Next(s, WaitEvent(PollCancelKey));
    var s2 := Next(s1, WaitEvent(PollContinueKey));
    assert s2.net.wait.replies == [CancelReply(false), ContinueReply(true)];
    acts, t := RepliesRelease(s2);
    QuietStep(s1, WaitEvent(PollContinueKey), acts, t);
    acts := [WaitEvent(PollContinueKey)] + acts;
    QuietStep(s, WaitEvent(PollCancelKey), acts, t);
    acts := [WaitEvent(PollCancelKey)] + acts;
  }

  lemma RepliesRelease(s: State) returns (acts: seq<Action>, t: State)
    requires s.pc.InWait?
    requires s.net == Net(false, false, Listening(None, true, false, [CancelReply(false), ContinueReply(true)], []))
    ensures Quiet(s, acts, t)
    ensures t == s.(pc := After(s.pc.gate), net := Net(false, false, Idle), passed := s.passed + {s.pc.gate})
  {
    var s1 := Next(s, WaitEvent(ReplyArrives));
    assert s1.net.wait.replies == [ContinueReply(true)];
    var s2 := Next(s1, WaitEvent(ReplyArrives));
    assert OutcomeOf(s2.net.wait) == Some(Released);
    t := Next(s2, LeaveWait);
    acts := [];
    QuietStep(s2, LeaveWait, acts, t);
    acts := [LeaveWait] + acts;
    QuietStep(s1, WaitEvent(ReplyArrives), acts, t);
    acts := [WaitEvent(ReplyArrives)] + acts;
    QuietStep(s, WaitEvent(ReplyArrives), acts, t);
    acts := [WaitEvent(ReplyArrives)] + acts;
  }

  /** A continue message that is heard first releases the wait. */
  lemma MessageReleases(s: State) returns (acts: seq<Action>, t: State)
    requires s.pc.InWait? && s.net.wait.Listening? && s.net.wait.settled.None?
    requires s.net.wait.inbox != [] && s.net.wait.inbox[0] == ContinueMessage
    ensures Quiet(s, acts, t) && s.pc.gate in t.passed && t.approved == s.approved
    decreases s.net.wait.midPoll
  {
    if s.net.wait.midPoll {
      var s1 := Next(s, WaitEvent(PollContinueKey));
      acts, t := MessageReleases(s1);
      QuietStep(s, WaitEvent(PollContinueKey), acts, t);
      acts := [WaitEvent(PollContinueKey)] + acts;
    } else {
      var s1 := Next(s, WaitEvent(MessageArrives));
      assert OutcomeOf(s1.net.wait) == Some(Released);
      t := Next(s1, LeaveWait);
      QuietStep(s1, LeaveWait, [], t);
      QuietStep(s, WaitEvent(MessageArrives), [LeaveWait] + [], t);
      acts := [WaitEvent(MessageArrives)] + ([LeaveWait] + []);
    }
  }

  /** From one wait to the announcement of the next. */
  lemma MovesOn(s: State) returns (acts: seq<Action>, t: State)
    requires s.pc.After? && s.pc.gate < SIGNOFF
    ensures Quiet(s, acts, t)
    ensures t == s.(pc := Announced(s.pc.gate + 1), status := AwaitingStatus(s.pc.gate + 1))
  {
    var s1 := Next(s, Resume);
    t := Next(s1, Announce);
    QuietStep(s1, Announce, [], t);
    QuietStep(s, Resume, [Announce] + [], t);
    acts := [Resume] + ([Announce] + []);
  }

  // ---------------------------------------------------------------------------------------
  // Harmlessness is exactly what safety needs
  // ---------------------------------------------------------------------------------------

  /** With the continue flag set a worker that has announced a wait passes it, if need be after a cancel key expired. */
  lemma PassesAnnounced(s: State) returns (acts: seq<Action>, t: State)
    requires s.pc.Announced? && s.net.continueFlag && s.net.wait.Idle?
    ensures Quiet(s, acts, t) && s.pc.gate in t.passed && t.approved == s.approved
  {
    if s.net.cancelFlag {
      acts, t := FlagReleases(Next(s, Expire(CancelExpires)));
      QuietStep(s, Expire(CancelExpires), acts, t);
      acts := [Expire(CancelExpires)] + acts;
    } else {
      acts, t := FlagReleases(s);
    }
  }

  lemma PassesNext(s: State) returns (acts: seq<Action>, t: State)
    requires s.pc.After? && s.pc.gate < SIGNOFF && s.net.continueFlag && s.net.wait.Idle?
    ensures Quiet(s, acts, t) && s.pc.gate + 1 in t.passed && t.approved == s.approved
  {
    var first, s1 := MovesOn(s);
    var last;
    last, t := PassesAnnounced(s1);
    QuietTwice(s, first, s1, last, t);
    acts := first + last;
  }

  lemma LeavesAndPassesNext(s: State) returns (acts: seq<Action>, t: State)
    requires s.pc.InWait? && s.pc.gate < SIGNOFF && Earned(s.net.wait) && s.net.continueFlag
    ensures Quiet(s, acts, t) && s.pc.gate + 1 in t.passed && t.approved == s.approved
    decreases EntryHit(s.net.wait)
  {
    if EntryHit(s.net.wait) {
      var s1 := Next(s, WaitEvent(EntryReply));
      assert OutcomeOf(s1.net.wait) == Some(Released);
      acts, t := LeavesAndPassesNext(s1);
      QuietStep(s, WaitEvent(EntryReply), acts, t);
      acts := [WaitEvent(EntryReply)] + acts;
    } else {
      acts, t := PassesNext(Next(s, LeaveWait));
      QuietStep(s, LeaveWait, acts, t);
      acts := [LeaveWait] + acts;
    }
  }

  /**
   A continue accepted in any other state leaves a flag behind with which the worker, on its own,
   goes on to pass a gate that nobody approved.
   */
  lemma HarmfulContinueSkipsAGate(s: State, a: Action) returns (acts: seq<Action>, t: State)
    requires Inv(s) && CanDo(s, a) && IsContinue(a) && !Harmless(s)
    ensures RunsTo(Next(s, a), acts, t) && HarmlessRun(Next(s, a), acts)
    ensures NextWait(s) in t.passed && NextWait(s) !in t.approved && !Safe(t)
  {
    var s0 := Next(s, a);
    OutsideEventFacts(s.net, PublishContinue);
    OutsideEventFacts(s.net, SetContinue);
    acts, t := PassesNextWait(s0);
    QuietRun(s0, acts, t);
  }

  /** With the flag set after its last wait was earned, the worker passes the wait that comes next. */
  lemma PassesNextWait(s: State) returns (acts: seq<Action>, t: State)
    requires Shape(s) && s.net.continueFlag && 1 <= NextWait(s) <= SIGNOFF
    requires s.pc.Working? || s.pc.After? || (s.pc.InWait? && Earned(s.net.wait))
    ensures Quiet(s, acts, t) && NextWait(s) in t.passed && t.approved == s.approved
  {
    match s.pc {
      case Working(g) =>
        acts, t := PassesAnnounced(Next(s, Announce));
        QuietStep(s, Announce, acts, t);
        acts := [Announce] + acts;
      case After(g) => acts, t := PassesNext(s);
      case InWait(g) => acts, t := LeavesAndPassesNext(s);
    }
  }

  /** However the execution goes on, with nothing harmful, it passes no unapproved gate. */
  ghost predicate StaysSafe(s: State) {
    forall acts, t :: RunsTo(s, acts, t) && HarmlessRun(s, acts) ==> Safe(t)
  }

  lemma InvStaysSafe(s: State)
    requires Inv(s)
    ensures StaysSafe(s)
  {
    forall acts, t | RunsTo(s, acts, t) && HarmlessRun(s, acts)
      ensures Safe(t)
    {
      InvRun(s, acts, t);
    }
  }

  /** In any state a harmless run can reach, accepting a continue is safe exactly when it is harmless. */
  lemma ContinueSafeIffHarmless(s: State, a: Action)
    requires Inv(s) && CanDo(s, a) && IsContinue(a)
    ensures Harmless(s) <==> StaysSafe(Next(s, a))
  {
    if Harmless(s) {
      InvStep(s, a);
      InvStaysSafe(Next(s, a));
    } else {
      var acts, t := HarmfulContinueSkipsAGate(s, a);
      assert RunsTo(Next(s, a), acts, t) && HarmlessRun(Next(s, a), acts) && !Safe(t);
    }
  }

  // ---------------------------------------------------------------------------------------
  // A publish in two commands
  // ---------------------------------------------------------------------------------------

  /** Sending a message that is due is safe exactly when it is in time or the wait that hears it may be released. */
  lemma SendSafeIffHarmless(s: State)
    requires Inv(s) && CanDo(s, SendRest)
    ensures HarmlessSend(s) <==> StaysSafe(Next(s, SendRest))
  {
    var s0 := Next(s, SendRest);
    if HarmlessSend(s) {
      InvStep(s, SendRest);
      InvStaysSafe(s0);
    } else {
      assert s0.net.wait.inbox == [ContinueMessage];
      var acts, t := MessageReleases(s0);
      QuietRun(s0, acts, t);
      assert RunsTo(s0, acts, t) && HarmlessRun(s0, acts) && !Safe(t);
    }
  }

  /** Once its flag alone has released a wait, a publish's message can release the next one too. */
  lemma LateMessageSkipsAGate(s: State) returns (acts: seq<Action>, t: State)
    requires s.pc.After? && s.pc.gate < SIGNOFF && s.net == Net(false, false, Idle)
    requires s.unsent > 0 && s.pc.gate + 1 !in s.approved
    ensures RunsTo(s, acts, t) && ContinuesIn(acts) == 0 && !Safe(t)
  {
    var first, s1 := ListensAtNext(s);
    var last;
    last, t := SentLate(s1);
    QuietThen(s, first, s1, last, t);
    acts := first + last;
    assert s.pc.gate + 1 in t.passed && s.pc.gate + 1 !in t.approved;
  }

  lemma ListensAtNext(s: State) returns (acts: seq<Action>, t: State)
    requires s.pc.After? && s.pc.gate < SIGNOFF && s.net == Net(false, false, Idle)
    ensures Quiet(s, acts, t) && t.pc == InWait(s.pc.gate + 1) && t.unsent == s.unsent && t.approved == s.approved
    ensures t.status == AwaitingStatus(s.pc.gate + 1)
    ensures t.net == Net(false, false, Listening(None, true, false, [], []))
  {
    var first, s1 := MovesOn(s);
    var second;
    second, t := Listens(s1);
    QuietTwice(s, first, s1, second, t);
    acts := first + second;
  }

  lemma SentLate(s: State) returns (acts: seq<Action>, t: State)
    requires s.pc.InWait? && s.net == Net(false, false, Listening(None, true, false, [], [])) && s.unsent > 0
    ensures RunsTo(s, acts, t) && ContinuesIn(acts) == 0
    ensures s.pc.gate in t.passed && t.approved == s.approved
  {
    var s1 := Next(s, SendRest);
    assert s1.net.wait.inbox == [ContinueMessage];
    acts, t := MessageReleases(s1);
    QuietRun(s1, acts, t);
    Prepend(s, SendRest, s1, acts, t);
    acts := [SendRest] + acts;
  }

  /** An approval published in two commands: the flag releases its own gate, the message the next one. */
  lemma SplitApprovalSkipsNextGate(s: State) returns (acts: seq<Action>, t: State)
    requires s.pc.InWait? && 1 <= s.pc.gate < SIGNOFF && s.status == AwaitingStatus(s.pc.gate)
    requires s.net == Net(false, false, Listening(None, true, false, [], [])) && s.pc.gate + 1 !in s.approved
    ensures RunsTo(s, acts, t) && ContinuesIn(acts) == 0 && !Safe(t)
  {
    var s1 := Next(s, ApproveInTwo(s.pc.gate));
    var first, s2 := PollReleases(s1);
    var last;
    last, t := LateMessageSkipsAGate(s2);
    QuietThen(s1, first, s2, last, t);
    Prepend(s, ApproveInTwo(s.pc.gate), s1, first + last, t);
    acts := [ApproveInTwo(s.pc.gate)] + (first + last);
  }

  /** Such a state is reached from the start, so the approval of the execution gate can release the defect gate. */
  lemma SplitApprovalFromTheStart() returns (acts: seq<Action>, t: State)
    ensures RunsTo(START, acts, t) && ContinuesIn(acts) == 1 && !Safe(t)
  {
    var s1 := Next(START, Announce);
    var s2 := Next(s1, ContinueAfterLogin);
    var quiet, s3 := ListensAfterLogin(s2);
    acts, t := SplitApprovalSkipsNextGate(s3);
    QuietThen(s2, quiet, s3, acts, t);
    acts := quiet + acts;
    Prepend(s1, ContinueAfterLogin, s2, acts, t);
    acts := [ContinueAfterLogin] + acts;
    Prepend(START, Announce, s1, acts, t);
    acts := [Announce] + acts;
  }

  lemma ListensAfterLogin(s: State) returns (acts: seq<Action>, t: State)
    requires s.pc == Announced(LOGIN) && s.net == Net(true, false, Idle)
    ensures Quiet(s, acts, t) && t.pc == InWait(1) && t.status == AwaitingStatus(1) && t.approved == s.approved
    ensures t.net == Net(false, false, Listening(None, true, false, [], []))
  {
    var first, s1 := FlagReleases(s);
    var second;
    second, t := ListensAtNext(s1);
    QuietTwice(s, first, s1, second, t);
    acts := first + second;
  }

  /** From the start of an execution: one continue, and with it alone the execution gate is passed unapproved. */
  lemma SplitContinueSkipsAGate() returns (acts: seq<Action>, t: State)
    ensures RunsTo(START, acts, t) && ContinuesIn(acts) == 1 && !Safe(t)
  {
    var s1 := Next(START, Announce);
    var s2 := Next(s1, ContinueInTwo);
    var first, s3 := FlagReleases(s2);
    var last;
    last, t := LateMessageSkipsAGate(s3);
    QuietThen(s2, first, s3, last, t);
    Prepend(s1, ContinueInTwo, s2, first + last, t);
    Prepend(START, Announce, s1, [ContinueInTwo] + (first + last), t);
    acts := [Announce] + ([ContinueInTwo] + (first + last));
  }

  // ---------------------------------------------------------------------------------------
  // An accepted cancel
  // ---------------------------------------------------------------------------------------

  /** The execution goes on and nothing is left that would ever cancel it. */
  predicate CancelLost(s: State) {
    !s.pc.Ended? && !CancelTrace(s.net) && !EndedUnreleased(s.net.wait)
  }

  /** Some course of events, the keys' lifetimes apart, loses the cancel. */
  ghost predicate CanLoseCancel(s: State) {
    exists acts, t :: RunsTo(s, acts, t) && NoExpiry(acts) && CancelLost(t)
  }

  /**
   Something is ahead of a cancel accepted now: the worker is in a wait that a poll before, a message
   already sent, or one still due to a wait that has not subscribed yet, may release after a poll has
   taken the cancel key.
   */
  predicate AheadOfCancel(s: State) {
    s.pc.InWait? &&
    match s.net.wait
    case EntryCancel(hit) => !hit && !s.net.continueFlag && s.unsent > 0
    case EntryContinue(hit) => !hit && s.unsent > 0
    case Listening(None, subscribed, midPoll, replies, inbox) =>
      || FirstHit(replies) == Some(ContinueReply(true))
      || (FirstHit(replies).None? && midPoll && s.net.continueFlag)
      || Hears(s.net.wait, ContinueMessage)
      || (inbox == [] && !subscribed && s.unsent > 0)
    case _ => false
  }

  /** In a wait that was cancelled, by status too, and that nothing can release any more. */
  predicate Doomed(s: State) {
    && s.pc.InWait? && s.status == CANCELLED
    && match s.net.wait
       case EntryCancel(hit) => s.net.cancelFlag && !hit && (s.net.continueFlag || s.unsent == 0)
       case EntryContinue(hit) => s.net.cancelFlag && !hit && s.unsent == 0
       case Listening(None, _, midPoll, replies, inbox) =>
         && (FirstHit(replies) == Some(CancelReply(true)) ||
             (FirstHit(replies).None? && s.net.cancelFlag && !(midPoll && s.net.continueFlag)))
         && (Hears(s.net.wait, CancelMessage) || (inbox == [] && s.unsent == 0))
       case _ => false
  }

  /** The cancel cannot be lost from here. */
  predicate CancelKept(s: State) {
    && Shape(s)
    && (s.pc.Ended? || EndedUnreleased(s.net.wait) || s.net.wait == EntryCancel(true) ||
        (s.net.cancelFlag && (!s.pc.InWait? || Earned(s.net.wait))) || Doomed(s))
  }

  lemma KeptIsNotLost(s: State)
    requires CancelKept(s)
    ensures !CancelLost(s)
  {
    if s.net.wait.Listening? {
      FirstHitIsThere(s.net.wait.replies);
    }
  }

  lemma DoomedWaitStep(s: State, e: Event)
    requires Doomed(s) && Shape(s) && CanDo(s, WaitEvent(e))
    ensures CancelKept(Next(s, WaitEvent(e)))
  {
    if e == PollCancelKey {
      FirstHitSnoc(s.net.wait.replies, CancelReply(s.net.cancelFlag));
    } else if e == PollContinueKey {
      FirstHitSnoc(s.net.wait.replies, ContinueReply(s.net.continueFlag));
    }
  }

  lemma KeptWaitStep(s: State, e: Event)
    requires CancelKept(s) && CanDo(s, WaitEvent(e))
    ensures CancelKept(Next(s, WaitEvent(e)))
  {
    if Doomed(s) {
      DoomedWaitStep(s, e);
    } else {
      WaitEventFacts(s.net, e);
    }
  }

  lemma DoomedApiStep(s: State, a: Action)
    requires Doomed(s) && Shape(s) && CanDo(s, a) && ApiAction(a) && !a.Expire?
    ensures CancelKept(Next(s, a))
  {
    assert a.SendRest?;
  }

  lemma KeptApiStep(s: State, a: Action)
    requires CancelKept(s) && CanDo(s, a) && ApiAction(a) && !a.Expire?
    ensures CancelKept(Next(s, a))
  {
    if Doomed(s) {
      DoomedApiStep(s, a);
    } else {
      OutsideEventFacts(s.net, if a.Cancel? then PublishCancel else if a.SendRest? then SendContinue
                               else if a.ApproveInTwo? || a.ContinueInTwo? then SetContinue else PublishContinue);
    }
  }

  lemma KeptStep(s: State, a: Action)
    requires CancelKept(s) && CanDo(s, a) && !a.Expire?
    ensures CancelKept(Next(s, a))
  {
    if a.WaitEvent? {
      KeptWaitStep(s, a.event);
    } else if ApiAction(a) {
      KeptApiStep(s, a);
    }
  }

  lemma {:induction false} KeptRun(s: State, acts: seq<Action>, t: State)
    requires CancelKept(s) && RunsTo(s, acts, t) && NoExpiry(acts)
    ensures CancelKept(t)
    decreases |acts|
  {
    if acts != [] {
      assert acts[0] in acts;
      KeptStep(s, acts[0]);
      KeptRun(Next(s, acts[0]), acts[1..], t);
    }
  }

  lemma LostCanLose(s: State)
    requires CancelLost(s)
    ensures CanLoseCancel(s)
  {
    assert RunsTo(s, [], s) && NoExpiry([]);
  }

  lemma CanLoseBefore(s: State, a: Action)
    requires CanDo(s, a) && !a.Expire? && CanLoseCancel(Next(s, a))
    ensures CanLoseCancel(s)
  {
    var acts, t :| RunsTo(Next(s, a), acts, t) && NoExpiry(acts) && CancelLost(t);
    Prepend(s, a, Next(s, a), acts, t);
    assert NoExpiry([a] + acts);
  }

  /** A continue heard first: a poll takes the cancel key, then the message releases the wait. */
  lemma HeardContinueLoses(s: State)
    requires s.pc.InWait? && s.net.wait.Listening? && s.net.wait.settled.None? && Hears(s.net.wait, ContinueMessage)
    ensures CanLoseCancel(s)
    decreases s.net.wait.midPoll, s.net.cancelFlag
  {
    if s.net.wait.midPoll {
      HeardContinueLoses(Next(s, WaitEvent(PollContinueKey)));
      CanLoseBefore(s, WaitEvent(PollContinueKey));
    } else if s.net.cancelFlag {
      var s1 := Next(s, WaitEvent(PollCancelKey));
      HeardContinueLoses(Next(s1, WaitEvent(PollContinueKey)));
      CanLoseBefore(s1, WaitEvent(PollContinueKey));
      CanLoseBefore(s, WaitEvent(PollCancelKey));
    } else {
      LostCanLose(Next(s, WaitEvent(MessageArrives)));
      CanLoseBefore(s, WaitEvent(MessageArrives));
    }
  }

  /** A continue reply ahead of any cancel reply. */
  lemma ContinueReplyLoses(s: State)
    requires s.pc.InWait? && s.net.wait.Listening? && s.net.wait.settled.None?
    requires FirstHit(s.net.wait.replies) == Some(ContinueReply(true)) ||
             (FirstHit(s.net.wait.replies).None? && s.net.wait.midPoll && s.net.continueFlag)
    ensures CanLoseCancel(s)
    decreases s.net.wait.midPoll, s.net.cancelFlag, |s.net.wait.replies|
  {
    var replies := s.net.wait.replies;
    if s.net.wait.midPoll {
      FirstHitSnoc(replies, ContinueReply(s.net.continueFlag));
      ContinueReplyLoses(Next(s, WaitEvent(PollContinueKey)));
      CanLoseBefore(s, WaitEvent(PollContinueKey));
    } else if s.net.cancelFlag {
      var s1 := Next(s, WaitEvent(PollCancelKey));
      FirstHitSnoc(replies, CancelReply(true));
      FirstHitSnoc(replies + [CancelReply(true)], ContinueReply(s.net.continueFlag));
      ContinueReplyLoses(Next(s1, WaitEvent(PollContinueKey)));
      CanLoseBefore(s1, WaitEvent(PollContinueKey));
      CanLoseBefore(s, WaitEvent(PollCancelKey));
    } else {
      var s1 := Next(s, WaitEvent(ReplyArrives));
      if replies[0].hit {
        LostCanLose(s1);
      } else {
        ContinueReplyLoses(s1);
      }
      CanLoseBefore(s, WaitEvent(ReplyArrives));
    }
  }

  /** A message still due reaches a wait that subscribed after the cancel was sent. */
  lemma DueMessageLoses(s: State)
    requires s.pc.InWait? && s.net.wait.Listening? && s.net.wait.settled.None?
    requires s.net.wait.inbox == [] && !s.net.wait.subscribed && s.unsent > 0
    ensures CanLoseCancel(s)
  {
    var s1 := Next(s, WaitEvent(Subscribe));
    HeardContinueLoses(Next(s1, SendRest));
    CanLoseBefore(s1, SendRest);
    CanLoseBefore(s, WaitEvent(Subscribe));
  }

  lemma EntryLoses(s: State)
    requires s.pc.InWait? && s.unsent > 0
    requires s.net.wait == EntryContinue(false) || (s.net.wait == EntryCancel(false) && !s.net.continueFlag)
    ensures CanLoseCancel(s)
    decreases s.net.wait.EntryCancel?
  {
    var s1 := Next(s, WaitEvent(EntryReply));
    if s.net.wait.EntryCancel? {
      EntryLoses(s1);
    } else {
      DueMessageLoses(s1);
    }
    CanLoseBefore(s, WaitEvent(EntryReply));
  }

  lemma AheadLoses(s: State)
    requires Shape(s) && CanDo(s, Cancel) && AheadOfCancel(s)
    ensures CanLoseCancel(Next(s, Cancel))
  {
    var s0 := Next(s, Cancel);
    if s.net.wait.EntryCancel? || s.net.wait.EntryContinue? {
      EntryLoses(s0);
    } else if Hears(s.net.wait, ContinueMessage) {
      HeardContinueLoses(s0);
    } else if s.net.wait.inbox == [] && !s.net.wait.subscribed && s.unsent > 0 {
      DueMessageLoses(s0);
    } else {
      ContinueReplyLoses(s0);
    }
  }

  /** An unsubscribed wait has heard nothing. */
  predicate HeardNothingYet(w: Wait) {
    w.Listening? && w.settled.None? && !w.subscribed ==> w.inbox == []
  }

  lemma NothingAheadKeeps(s: State)
    requires Shape(s) && CanDo(s, Cancel) && !AheadOfCancel(s) && HeardNothingYet(s.net.wait)
    ensures CancelKept(Next(s, Cancel))
  {
    var s0 := Next(s, Cancel);
    if s.net.wait.Listening? {
      FirstHitIsThere(s.net.wait.replies);
      if s.net.wait.settled.None? {
        assert s.net.wait.subscribed ==> s0.net.wait.inbox == s.net.wait.inbox + [CancelMessage];
        assert Doomed(s0);
      }
    }
  }

  /** An accepted cancel can be lost, the execution running on uncancelled, exactly when something is ahead of it. */
  lemma CancelLostIffAhead(s: State)
    requires Shape(s) && HeardNothingYet(s.net.wait) && CanDo(s, Cancel)
    ensures CanLoseCancel(Next(s, Cancel)) <==> AheadOfCancel(s)
  {
    var s0 := Next(s, Cancel);
    if AheadOfCancel(s) {
      AheadLoses(s);
    } else {
      NothingAheadKeeps(s);
      if acts, t :| RunsTo(s0, acts, t) && NoExpiry(acts) && CancelLost(t) {
        KeptRun(s0, acts, t);
        KeptIsNotLost(t);
      }
    }
  }

  lemma ShapeWaitStep(s: State, e: Event)
    requires Shape(s) && HeardNothingYet(s.net.wait) && CanDo(s, WaitEvent(e))
    ensures Shape(Next(s, WaitEvent(e))) && HeardNothingYet(Next(s, WaitEvent(e)).net.wait)
  {
  }

  lemma ShapeStep(s: State, a: Action)
    requires Shape(s) && HeardNothingYet(s.net.wait) && CanDo(s, a)
    ensures Shape(Next(s, a)) && HeardNothingYet(Next(s, a).net.wait)
  {
    if a.WaitEvent? {
      ShapeWaitStep(s, a.event);
    }
  }

  /** The two conditions on the state hold all along. */
  lemma {:induction false} ShapeRun(s: State, acts: seq<Action>, t: State)
    requires Shape(s) && HeardNothingYet(s.net.wait) && RunsTo(s, acts, t)
    ensures Shape(t) && HeardNothingYet(t.net.wait)
    decreases |acts|
  {
    if acts != [] {
      ShapeStep(s, acts[0]);
      ShapeRun(Next(s, acts[0]), acts[1..], t);
    }
  }

  /**
   From the start: a continue is pressed at the login wait, then cancel. Cancel is accepted, a poll
   takes its key, the continue message is heard first, and the worker goes on to discovery with
   status RUNNING and no trace of the cancel.
   */
  lemma AcceptedCancelIsLost() returns (acts: seq<Action>, t: State)
    ensures RunsTo(START, acts, t) && Cancel in acts && NoExpiry(acts) && ContinuesIn(acts) == 1
    ensures t.pc == Working(1) && t.status == RUNNING && t.net == Net(false, false, Idle) && CancelLost(t)
  {
    var first, s1 := ListensAtLogin();
    var last;
    last, t := ContinueThenCancel(s1);
    QuietThen(START, first, s1, last, t);
    acts := first + last;
  }

  lemma ListensAtLogin() returns (acts: seq<Action>, t: State)
    ensures Quiet(START, acts, t) && NoExpiry(acts) && t.pc == InWait(LOGIN) && t.status == AWAITING_LOGIN
    ensures t.net == Net(false, false, Listening(None, true, false, [], []))
  {
    acts, t := Listens(Next(START, Announce));
    QuietStep(START, Announce, acts, t);
    acts := [Announce] + acts;
  }

  lemma ContinueThenCancel(s: State) returns (acts: seq<Action>, t: State)
    requires s.pc == InWait(LOGIN) && s.status == AWAITING_LOGIN
    requires s.net == Net(false, false, Listening(None, true, false, [], []))
    ensures RunsTo(s, acts, t) && Cancel in acts && NoExpiry(acts) && ContinuesIn(acts) == 1
    ensures t.pc == Working(1) && t.status == RUNNING && t.net == Net(false, false, Idle)
  {
    var s1 := Next(s, ContinueAfterLogin);
    assert s1.net.wait.inbox == [ContinueMessage];
    var s2 := Next(s1, Cancel);
    assert s2.net.wait.inbox == [ContinueMessage, CancelMessage];
    acts, t := MessageOvertakesCancel(s2);
    Prepend(s1, Cancel, s2, acts, t);
    acts := [Cancel] + acts;
    Prepend(s, ContinueAfterLogin, s1, acts, t);
    acts := [ContinueAfterLogin] + acts;
  }

  lemma MessageOvertakesCancel(s: State) returns (acts: seq<Action>, t: State)
    requires s.pc == InWait(LOGIN)
    requires s.net == Net(true, true, Listening(None, true, false, [], [ContinueMessage, CancelMessage]))
    ensures RunsTo(s, acts, t) && NoExpiry(acts) && ContinuesIn(acts) == 0
    ensures t.pc == Working(1) && t.status == RUNNING && t.net == Net(false, false, Idle)
  {
    var s1 := Next(s, WaitEvent(PollCancelKey));
    var s2 := Next(s1, WaitEvent(PollContinueKey));
    acts, t := HeardMessageMovesOn(s2);
    Prepend(s1, WaitEvent(PollContinueKey), s2, acts, t);
    acts := [WaitEvent(PollContinueKey)] + acts;
    Prepend(s, WaitEvent(PollCancelKey), s1, acts, t);
    acts := [WaitEvent(PollCancelKey)] + acts;
  }

  lemma HeardMessageMovesOn(s: State) returns (acts: seq<Action>, t: State)
    requires s.pc == InWait(LOGIN) && !s.net.cancelFlag
    requires Hears(s.net.wait, ContinueMessage) && s.net.wait.settled.None? && !s.net.wait.midPoll
    ensures RunsTo(s, acts, t) && NoExpiry(acts) && ContinuesIn(acts) == 0
    ensures t.pc == Working(1) && t.status == RUNNING && t.net == Net(false, false, Idle)
  {
    var s1 := Next(s, WaitEvent(MessageArrives));
    acts, t := ReleasedMovesOn(s1);
    Prepend(s, WaitEvent(MessageArrives), s1, acts, t);
    acts := [WaitEvent(MessageArrives)] + acts;
  }

  lemma ReleasedMovesOn(s: State) returns (acts: seq<Action>, t: State)
    requires s.pc == InWait(LOGIN) && OutcomeOf(s.net.wait) == Some(Released)
    requires !s.net.cancelFlag && !s.net.continueFlag
    ensures RunsTo(s, acts, t) && NoExpiry(acts) && ContinuesIn(acts) == 0
    ensures t.pc == Working(1) && t.status == RUNNING && t.net == Net(false, false, Idle)
  {
    var s1 := Next(s, LeaveWait);
    t := Next(s1, Resume);
    Prepend(s1, Resume, t, [], t);
    Prepend(s, LeaveWait, s1, [Resume] + [], t);
    acts := [LeaveWait] + ([Resume] + []);
  }

  // ---------------------------------------------------------------------------------------
  // What a caller can rely on
  // ---------------------------------------------------------------------------------------

  /** Before the first continue nothing can release even the login wait. */
  predicate LoginStillClosed(s: State) {
    s.unsent == 0 && s.approved == {} && s.passed == {} && !HasToken(s.net) && !Earned(s.net.wait) &&
    (s.pc.PreLogin? || s.pc == Announced(LOGIN) || s.pc == InWait(LOGIN) || s.pc.Ended?)
  }

  lemma LoginStillClosedStep(s: State, a: Action)
    requires Inv(s) && LoginStillClosed(s) && CanDo(s, a) && !IsContinue(a)
    ensures LoginStillClosed(Next(s, a))
  {
    match a {
      case WaitEvent(e) => WaitEventFacts(s.net, e);
      case Cancel => OutsideEventFacts(s.net, PublishCancel);
      case Expire(e) => OutsideEventFacts(s.net, e);
      case Approve(g) => assert false;
      case ApproveInTwo(g) => assert false;
      case ApproveUnusedGate(_) => assert false;
      case _ =>
    }
  }

  /** No message is sent that releases a wait it must not. */
  ghost predicate SendsHarmless(s: State, acts: seq<Action>)
    decreases |acts|
  {
    acts == [] || !CanDo(s, acts[0]) ||
    ((acts[0].SendRest? ==> HarmlessSend(s)) && SendsHarmless(Next(s, acts[0]), acts[1..]))
  }

  lemma {:induction false} NoContinueHarmless(s: State, acts: seq<Action>)
    requires ContinuesIn(acts) == 0 && SendsHarmless(s, acts)
    ensures HarmlessRun(s, acts)
    decreases |acts|
  {
    if acts != [] && CanDo(s, acts[0]) {
      NoContinueHarmless(Next(s, acts[0]), acts[1..]);
    }
  }

  lemma {:induction false} OneContinueHarmless(s: State, acts: seq<Action>)
    requires Inv(s) && LoginStillClosed(s) && ContinuesIn(acts) <= 1 && SendsHarmless(s, acts)
    ensures HarmlessRun(s, acts)
    decreases |acts|
  {
    if acts != [] && CanDo(s, acts[0]) {
      assert Harmless(s);
      InvStep(s, acts[0]);
      if IsContinue(acts[0]) {
        NoContinueHarmless(Next(s, acts[0]), acts[1..]);
      } else {
        LoginStillClosedStep(s, acts[0]);
        OneContinueHarmless(Next(s, acts[0]), acts[1..]);
      }
    }
  }

  /** One continue per execution is enough for safety, whenever it is pressed, if no message is harmfully late. */
  lemma OneContinueIsSafe(acts: seq<Action>, t: State)
    requires RunsTo(START, acts, t) && ContinuesIn(acts) <= 1 && SendsHarmless(START, acts)
    ensures Safe(t) && (t.status == COMPLETED ==> forall g :: 1 <= g <= SIGNOFF ==> g in t.approved)
  {
    OneContinueHarmless(START, acts);
    GatesNeedApproval(acts, t);
    if t.status == COMPLETED {
      CompletedMeansApproved(acts, t);
    }
  }

  /**
   Accepting continues only at AWAITING_LOGIN is not enough. The worker writes AWAITING_LOGIN
   twice before its wait, and no other status until discovery starts: a continue between the
   two writes is answered by a wait that leaves the status unchanged, and a second one then
   skips the execution gate.
   */
  lemma LoginStatusIsNotEnough() returns (acts: seq<Action>, t: State)
    ensures RunsTo(START, acts, t) && ContinuesOnlyAtLogin(START, acts) && !Safe(t)
  {
    var s1 := Next(START, Announce);
    var s2 := Next(s1, ContinueAfterLogin);
    acts, t := AnnouncedAgain(s2);
    Prepend(s1, ContinueAfterLogin, s2, acts, t);
    acts := [ContinueAfterLogin] + acts;
    Prepend(START, Announce, s1, acts, t);
    acts := [Announce] + acts;
  }

  lemma AnnouncedAgain(s: State) returns (acts: seq<Action>, t: State)
    requires s.net == Net(true, false, Idle) && s.pc == Announced(LOGIN) && 1 !in s.approved
    ensures RunsTo(s, acts, t) && ContinuesOnlyAtLogin(s, acts) && !Safe(t)
  {
    var s1 := Next(s, AnnounceAgain);
    var first, s2 := FlagReleases(s1);
    acts, t := SecondContinue(s2);
    QuietThen(s1, first, s2, acts, t);
    acts := first + acts;
    Prepend(s, AnnounceAgain, s1, acts, t);
    acts := [AnnounceAgain] + acts;
  }

  /** The login wait has returned, the status still reads AWAITING_LOGIN, and a continue comes again. */
  lemma SecondContinue(s: State) returns (acts: seq<Action>, t: State)
    requires s.net == Net(false, false, Idle) && s.pc == After(LOGIN) && s.status == AWAITING_LOGIN && 1 !in s.approved
    ensures RunsTo(s, acts, t) && ContinuesOnlyAtLogin(s, acts) && !Safe(t)
  {
    var s1 := Next(s, ContinueAfterLogin);
    var quiet;
    quiet, t := PassesNext(s1);
    QuietRun(s1, quiet, t);
    Prepend(s, ContinueAfterLogin, s1, quiet, t);
    acts := [ContinueAfterLogin] + quiet;
  }

  // ---------------------------------------------------------------------------------------
  // An approval releases its gate
  // ---------------------------------------------------------------------------------------

  /** The worker announces wait `g` or is in it. */
  predicate AtGate(s: State, g: nat) {
    s.pc == Announced(g) || s.pc == InWait(g)
  }

  /** Its wait is not settled yet and no cancel is on its way to it. */
  predicate Open(s: State, g: nat) {
    Shape(s) && AtGate(s, g) && OutcomeOf(s.net.wait).None? && !CancelTrace(s.net)
  }

  /** What an API call puts on Redis when it publishes: the key, and a message if the wait listens. */
  predicate Published(before: Net, after: Net, m: Message) {
    && after.continueFlag == (before.continueFlag || m.ContinueMessage?)
    && after.cancelFlag == (before.cancelFlag || m.CancelMessage?)
    && (if before.wait.Listening? && before.wait.subscribed
        then after.wait.Listening? && after.wait.inbox == before.wait.inbox + [m] &&
             after.wait.replies == before.wait.replies && after.wait.settled == before.wait.settled &&
             after.wait.midPoll == before.wait.midPoll && after.wait.subscribed
        else after.wait == before.wait)
  }

  /** What each call of the API leaves behind, read off the fields. */
  lemma ApiEffects(s: State, a: Action)
    requires CanDo(s, a)
    ensures var t := Next(s, a);
            && (a.Approve? || a.ContinueAfterLogin? ==> t.status == RUNNING && Published(s.net, t.net, ContinueMessage))
            && (a.ApproveInTwo? || a.ContinueInTwo? ==>
                t.status == RUNNING && t.net.continueFlag && t.net.wait == s.net.wait && t.unsent == s.unsent + 1)
            && (a.Approve? || a.ApproveInTwo? ==> t.approved == s.approved + {a.gate})
            && (a == Cancel ==> t.status == CANCELLED && Published(s.net, t.net, CancelMessage))
            && (a == ApprovePreLogin ==> t.status == RUNNING && t.net == s.net)
            && (ApiAction(a) ==> t.pc == s.pc && t.passed == s.passed)
  {
  }

  /** The gate is passed, or its wait still has the continue, or the wait has been settled. */
  predicate Owed(s: State, g: nat) {
    || g in s.passed
    || s.pc.Ended?
    || (s.pc == Announced(g) && s.net.continueFlag)
    || (s.pc == InWait(g) && (HasToken(s.net) || Earned(s.net.wait) || EndedUnreleased(s.net.wait)))
  }

  lemma OwedWaitStep(s: State, e: Event, g: nat)
    requires Shape(s) && Owed(s, g) && s.pc == InWait(g) && CanDo(s, WaitEvent(e))
    ensures Owed(Next(s, WaitEvent(e)), g)
  {
    WaitEventFacts(s.net, e);
    if g !in s.passed && OutcomeOf(s.net.wait).None? {
      TokenConserved(s.net, e);
    }
  }

  lemma OwedApiStep(s: State, a: Action, g: nat)
    requires Shape(s) && Owed(s, g) && s.pc == InWait(g) && CanDo(s, a) && ApiAction(a) && !a.Expire?
    ensures Owed(Next(s, a), g)
  {
    ApiEffects(s, a);
    if g !in s.passed && OutcomeOf(s.net.wait).None? && a.SendRest? {
      TokenConserved(s.net, SendContinue);
    }
  }

  lemma OwedStep(s: State, a: Action, g: nat)
    requires Shape(s) && Owed(s, g) && CanDo(s, a) && !a.Expire?
    ensures Owed(Next(s, a), g)
  {
    if g !in s.passed && s.pc == InWait(g) {
      if a.WaitEvent? {
        OwedWaitStep(s, a.event, g);
      } else if ApiAction(a) {
        OwedApiStep(s, a, g);
      }
    }
  }

  /**
   Once the continue flag is set at the gate the worker announces or waits at, then however the
   execution goes on, short of the key's expiry, the flag, a reply or a message keeps the release
   until the wait is settled: the worker never waits there for a continue that is gone.
   */
  lemma {:induction false} ApprovalIsKept(s: State, g: nat, acts: seq<Action>, t: State)
    requires Shape(s) && HeardNothingYet(s.net.wait) && Owed(s, g)
    requires RunsTo(s, acts, t) && NoExpiry(acts)
    ensures Owed(t, g)
    decreases |acts|
  {
    if acts != [] {
      assert acts[0] in acts;
      OwedStep(s, acts[0], g);
      ShapeStep(s, acts[0]);
      ApprovalIsKept(Next(s, acts[0]), g, acts[1..], t);
    }
  }

  /** Nothing cancels the execution, fails it or lets it time out. */
  predicate CalmAction(a: Action) {
    a != Cancel && a != Crash && !a.Expire? && a != WaitEvent(TimerFires) && a != WaitEvent(SubscribeFails)
  }

  ghost predicate Calm(acts: seq<Action>) {
    forall a :: a in acts ==> CalmAction(a)
  }

  /** The gate is passed, or no cancel is on its way and the worker has, or will be given, the release. */
  predicate Granted(s: State, g: nat) {
    || g in s.passed
    || (!CancelTrace(s.net) && s.pc == Announced(g) && s.net.continueFlag)
    || (!CancelTrace(s.net) && s.pc == InWait(g) && OutcomeOf(s.net.wait).None? && HasToken(s.net))
    || (!CancelTrace(s.net) && s.pc == InWait(g) && Earned(s.net.wait))
  }

  /** Without a cancel, an event of the wait leaves no trace of one. */
  lemma NoCancelStep(n: Net, e: Event)
    requires Enabled(n, e) && !CancelTrace(n) && n.wait != Done(Cancelled)
    requires e != SetCancel && e != SendCancel && e != PublishCancel
    ensures !CancelTrace(Step(n, e))
    ensures OutcomeOf(Step(n, e).wait) == Some(Cancelled) ==> OutcomeOf(n.wait) == Some(Cancelled)
  {
    match e {
      case ReplyArrives =>
        assert n.wait.replies == [n.wait.replies[0]] + n.wait.replies[1..];
      case MessageArrives =>
        assert n.wait.inbox == [n.wait.inbox[0]] + n.wait.inbox[1..];
      case _ =>
    }
  }

  lemma GrantedWaitStep(s: State, e: Event, g: nat)
    requires Shape(s) && Granted(s, g) && s.pc == InWait(g) && CanDo(s, WaitEvent(e)) && CalmAction(WaitEvent(e))
    ensures Granted(Next(s, WaitEvent(e)), g)
  {
    if g !in s.passed {
      NoCancelStep(s.net, e);
      WaitEventFacts(s.net, e);
      if OutcomeOf(s.net.wait).None? {
        TokenConserved(s.net, e);
      }
    }
  }

  lemma GrantedApiStep(s: State, a: Action, g: nat)
    requires Shape(s) && Granted(s, g) && s.pc == InWait(g) && CanDo(s, a) && ApiAction(a) && CalmAction(a)
    ensures Granted(Next(s, a), g)
  {
    if g !in s.passed {
      var e := if a.SendRest? then SendContinue
               else if a.ContinueInTwo? || a.ApproveInTwo? then SetContinue else PublishContinue;
      NoCancelStep(s.net, e);
      OutsideEventFacts(s.net, e);
      if OutcomeOf(s.net.wait).None? {
        TokenConserved(s.net, e);
      }
    }
  }

  lemma GrantedStep(s: State, a: Action, g: nat)
    requires Shape(s) && Granted(s, g) && CanDo(s, a) && CalmAction(a)
    ensures Granted(Next(s, a), g)
  {
    if g !in s.passed && s.pc == InWait(g) {
      if a.WaitEvent? {
        GrantedWaitStep(s, a.event, g);
      } else if ApiAction(a) {
        GrantedApiStep(s, a, g);
      }
    }
  }

  /** The worker's own steps, with neither timer nor failure, lead past gate `g`. */
  ghost predicate CanPass(s: State, g: nat) {
    exists acts, t :: RunsTo(s, acts, t) && OwnSteps(acts) && g in t.passed
  }

  ghost predicate OwnSteps(acts: seq<Action>) {
    forall a :: a in acts ==> WaitAction(a) && CalmAction(a)
  }

  lemma CanPassBefore(s: State, a: Action, g: nat)
    requires CanDo(s, a) && WaitAction(a) && CalmAction(a) && CanPass(Next(s, a), g)
    ensures CanPass(s, g)
  {
    var acts, t :| RunsTo(Next(s, a), acts, t) && OwnSteps(acts) && g in t.passed;
    Prepend(s, a, Next(s, a), acts, t);
    assert OwnSteps([a] + acts);
  }

  lemma EarnedPasses(s: State, g: nat)
    requires s.pc == InWait(g) && Earned(s.net.wait)
    ensures CanPass(s, g)
    decreases EntryHit(s.net.wait)
  {
    if EntryHit(s.net.wait) {
      EarnedPasses(Next(s, WaitEvent(EntryReply)), g);
      CanPassBefore(s, WaitEvent(EntryReply), g);
    } else {
      var t := Next(s, LeaveWait);
      assert RunsTo(t, [], t) && OwnSteps([]);
      CanPassBefore(s, LeaveWait, g);
    }
  }

  lemma MessagePasses(s: State, g: nat)
    requires s.pc == InWait(g) && s.net.wait.Listening? && s.net.wait.settled.None?
    requires Hears(s.net.wait, ContinueMessage)
    ensures CanPass(s, g)
    decreases s.net.wait.midPoll
  {
    var e := if s.net.wait.midPoll then PollContinueKey else MessageArrives;
    if e == PollContinueKey {
      MessagePasses(Next(s, WaitEvent(e)), g);
    } else {
      EarnedPasses(Next(s, WaitEvent(e)), g);
    }
    CanPassBefore(s, WaitEvent(e), g);
  }

  lemma ReplyPasses(s: State, g: nat)
    requires s.pc == InWait(g) && s.net.wait.Listening? && s.net.wait.settled.None? && !CancelTrace(s.net)
    requires ContinueReply(true) in s.net.wait.replies
    ensures CanPass(s, g)
    decreases s.net.wait.midPoll, |s.net.wait.replies|
  {
    var w := s.net.wait;
    var e := if w.midPoll then PollContinueKey else ReplyArrives;
    var s1 := Next(s, WaitEvent(e));
    NoCancelStep(s.net, e);
    if e == PollContinueKey {
      assert forall r :: r in w.replies ==> r in s1.net.wait.replies;
      ReplyPasses(s1, g);
    } else {
      assert w.replies == [w.replies[0]] + w.replies[1..];
      assert w.replies[0] != CancelReply(true);
      if w.replies[0].hit {
        EarnedPasses(s1, g);
      } else {
        ReplyPasses(s1, g);
      }
    }
    CanPassBefore(s, WaitEvent(e), g);
  }

  /** A set flag is taken by the next poll. */
  lemma FlagPasses(s: State, g: nat)
    requires s.pc == InWait(g) && s.net.wait.Listening? && s.net.wait.settled.None? && !CancelTrace(s.net)
    requires s.net.continueFlag
    ensures CanPass(s, g)
    decreases !s.net.wait.midPoll
  {
    var e := if s.net.wait.midPoll then PollContinueKey else PollCancelKey;
    var s1 := Next(s, WaitEvent(e));
    NoCancelStep(s.net, e);
    if e == PollContinueKey {
      assert s1.net.wait.replies[|s.net.wait.replies|] == ContinueReply(true);
      ReplyPasses(s1, g);
    } else {
      FlagPasses(s1, g);
    }
    CanPassBefore(s, WaitEvent(e), g);
  }

  lemma EntryPasses(s: State, g: nat)
    requires s.pc == InWait(g) && s.net.continueFlag && !CancelTrace(s.net)
    requires s.net.wait == EntryCancel(false) || s.net.wait == EntryContinue(false)
    ensures CanPass(s, g)
  {
    var s1 := Next(s, WaitEvent(EntryReply));
    if s.net.wait.EntryCancel? {
      EarnedPasses(s1, g);
    } else {
      FlagPasses(s1, g);
    }
    CanPassBefore(s, WaitEvent(EntryReply), g);
  }

  lemma GrantedPasses(s: State, g: nat)
    requires Shape(s) && Granted(s, g)
    ensures CanPass(s, g)
  {
    if g in s.passed {
      assert RunsTo(s, [], s) && OwnSteps([]);
    } else if s.pc == Announced(g) {
      EntryPasses(Next(s, EnterWait), g);
      CanPassBefore(s, EnterWait, g);
    } else if Earned(s.net.wait) {
      EarnedPasses(s, g);
    } else if Hears(s.net.wait, ContinueMessage) {
      MessagePasses(s, g);
    } else if s.net.wait.Listening? && !s.net.continueFlag {
      ReplyPasses(s, g);
    } else if s.net.wait.Listening? {
      FlagPasses(s, g);
    } else {
      EntryPasses(s, g);
    }
  }

  lemma {:induction false} GrantedRun(s: State, g: nat, acts: seq<Action>, t: State)
    requires Shape(s) && HeardNothingYet(s.net.wait) && Granted(s, g) && RunsTo(s, acts, t) && Calm(acts)
    ensures Granted(t, g) && Shape(t)
    decreases |acts|
  {
    if acts != [] {
      assert acts[0] in acts;
      GrantedStep(s, acts[0], g);
      ShapeStep(s, acts[0]);
      GrantedRun(Next(s, acts[0]), g, acts[1..], t);
    }
  }

  /**
   With the flag set at the gate the worker announces or waits at, and neither a cancel on its way
   nor the wait settled: after any further run without cancel, failure, timeout and expiry, whatever
   else the API does in it, the worker has passed the gate or can do so by its own steps.
   */
  lemma ApprovedGateIsPassed(s: State, g: nat, acts: seq<Action>, t: State)
    requires Open(s, g) && HeardNothingYet(s.net.wait) && s.net.continueFlag
    requires RunsTo(s, acts, t) && Calm(acts)
    ensures CanPass(t, g)
  {
    GrantedRun(s, g, acts, t);
    GrantedPasses(t, g);
  }

  /** An approval, in one command or two, sets the flag and leaves the wait open. */
  lemma ApprovedStaysOpen(s: State, a: Action)
    requires CanDo(s, a) && (a.Approve? || a.ApproveInTwo?) && Open(s, a.gate) && HeardNothingYet(s.net.wait)
    ensures Open(Next(s, a), a.gate) && Next(s, a).net.continueFlag && HeardNothingYet(Next(s, a).net.wait)
  {
    var e := if a.Approve? then PublishContinue else SetContinue;
    NoCancelStep(s.net, e);
    OutsideEventFacts(s.net, e);
  }

  lemma ApprovalCanPass(s: State, g: nat)
    requires CanDo(s, Approve(g)) && Open(s, g)
    ensures CanPass(Next(s, Approve(g)), g)
  {
    NoCancelStep(s.net, PublishContinue);
    OutsideEventFacts(s.net, PublishContinue);
    GrantedPasses(Next(s, Approve(g)), g);
  }

  /**
   From the start of an execution, over harmless runs: a gate that can be approved is the one the
   worker is at, and after the approval, in one command or two, the worker can always pass it.
   */
  lemma ApprovalReleasesItsGate(before: seq<Action>, s: State, a: Action, after: seq<Action>, t: State)
    requires RunsTo(START, before, s) && HarmlessRun(START, before)
    requires CanDo(s, a) && (a.Approve? || a.ApproveInTwo?)
    requires OutcomeOf(s.net.wait).None? && !CancelTrace(s.net)
    requires RunsTo(Next(s, a), after, t) && Calm(after)
    ensures AtGate(s, a.gate) && CanPass(t, a.gate)
  {
    InvRun(START, before, s);
    ShapeRun(START, before, s);
    ApprovedStaysOpen(s, a);
    ApprovedGateIsPassed(Next(s, a), a.gate, after, t);
  }

  // ---------------------------------------------------------------------------------------
  // How an execution ends
  // ---------------------------------------------------------------------------------------

  /** No cancel was ever accepted. */
  predicate NeverCancelled(s: State) {
    !CancelTrace(s.net) && OutcomeOf(s.net.wait) != Some(Cancelled) && s.status != CANCELLED
  }

  /** No wait timed out or lost its subscription, and nothing crashed. */
  predicate NeverFailed(s: State) {
    OutcomeOf(s.net.wait) != Some(TimedOut) && OutcomeOf(s.net.wait) != Some(SubscribeFailed) && s.status != FAILED
  }

  lemma NeverCancelledStep(s: State, a: Action)
    requires NeverCancelled(s) && CanDo(s, a) && a != Cancel
    ensures NeverCancelled(Next(s, a))
  {
    match a {
      case EnterWait => NoCancelStep(s.net, Enter);
      case WaitEvent(e) => NoCancelStep(s.net, e);
      case LeaveWait => NoCancelStep(s.net, Return);
      case Expire(e) => NoCancelStep(s.net, e);
      case _ =>
    }
  }

  lemma NeverFailedStep(s: State, a: Action)
    requires NeverFailed(s) && CanDo(s, a)
    requires a != Crash && a != WaitEvent(TimerFires) && a != WaitEvent(SubscribeFails)
    ensures NeverFailed(Next(s, a))
  {
  }

  lemma {:induction false} CancelledOnlyByCancel(s: State, acts: seq<Action>, t: State)
    requires NeverCancelled(s) && RunsTo(s, acts, t) && Cancel !in acts
    ensures NeverCancelled(t)
    decreases |acts|
  {
    if acts != [] {
      assert acts[0] in acts;
      NeverCancelledStep(s, acts[0]);
      CancelledOnlyByCancel(Next(s, acts[0]), acts[1..], t);
    }
  }

  lemma {:induction false} FailedOnlyByFailure(s: State, acts: seq<Action>, t: State)
    requires NeverFailed(s) && RunsTo(s, acts, t)
    requires Crash !in acts && WaitEvent(TimerFires) !in acts && WaitEvent(SubscribeFails) !in acts
    ensures NeverFailed(t)
    decreases |acts|
  {
    if acts != [] {
      assert acts[0] in acts;
      NeverFailedStep(s, acts[0]);
      FailedOnlyByFailure(Next(s, acts[0]), acts[1..], t);
    }
  }

  /** An execution is cancelled only after a cancel was accepted, and fails only after a failure or a timeout. */
  lemma EndsForAReason(acts: seq<Action>, t: State)
    requires RunsTo(START, acts, t)
    ensures t.status == CANCELLED ==> Cancel in acts
    ensures t.status == FAILED ==>
              Crash in acts || WaitEvent(TimerFires) in acts || WaitEvent(SubscribeFails) in acts
  {
    if Cancel !in acts {
      CancelledOnlyByCancel(START, acts, t);
    }
    if Crash !in acts && WaitEvent(TimerFires) !in acts && WaitEvent(SubscribeFails) !in acts {
      FailedOnlyByFailure(START, acts, t);
    }
  }

  /** A run without harm that completes with exactly the approvals `g` to the last added. */
  ghost predicate CanComplete(s: State, g: nat) {
    exists acts, t :: RunsTo(s, acts, t) && HarmlessRun(s, acts) && t.status == COMPLETED &&
                      t.approved == s.approved + GatesFrom(g) && t.passed == s.passed + GatesFrom(g)
  }

  function GatesFrom(g: nat): set<nat>
    decreases NONE - g
  {
    if g > SIGNOFF then {} else {g} + GatesFrom(g + 1)
  }

  lemma QuietComplete(s: State, quiet: seq<Action>, s1: State, g: nat) returns (acts: seq<Action>, t: State)
    requires Quiet(s, quiet, s1) && CanComplete(s1, g)
    ensures RunsTo(s, acts, t) && HarmlessRun(s, acts) && t.status == COMPLETED
    ensures t.approved == s1.approved + GatesFrom(g) && t.passed == s1.passed + GatesFrom(g)
  {
    acts, t :| RunsTo(s1, acts, t) && HarmlessRun(s1, acts) && t.status == COMPLETED &&
               t.approved == s1.approved + GatesFrom(g) && t.passed == s1.passed + GatesFrom(g);
    QuietThen(s, quiet, s1, acts, t);
    acts := quiet + acts;
  }

  lemma ApprovedThen(s: State, g: nat, s1: State, acts: seq<Action>, t: State)
    requires CanDo(s, Approve(g)) && s1 == Next(s, Approve(g)) && RunsTo(s1, acts, t) && HarmlessRun(s1, acts)
    requires t.status == COMPLETED
    requires t.approved == s1.approved + GatesFrom(g + 1) && t.passed == s1.passed + {g} + GatesFrom(g + 1)
    ensures CanComplete(s, g)
  {
    Prepend(s, Approve(g), s1, acts, t);
    assert t.approved == s.approved + GatesFrom(g);
    assert t.passed == s.passed + GatesFrom(g);
  }

  /** One gate: its approval, which sets the flag, and the wait it releases. */
  lemma GateRound(s: State, g: nat) returns (t: State)
    requires 1 <= g <= SIGNOFF && s.pc == Announced(g) && s.status == AwaitingStatus(g)
    requires s.net == Net(false, false, Idle)
    ensures t.pc == After(g) && t.net == s.net
    ensures CanComplete(t, g + 1) ==> CanComplete(s, g)
  {
    var s1 := Next(s, Approve(g));
    var pass;
    pass, t := FlagReleases(s1);
    if CanComplete(t, g + 1) {
      var acts, u := QuietComplete(s1, pass, t, g + 1);
      ApprovedThen(s, g, s1, acts, u);
    }
  }

  /** On to the next announcement. */
  lemma MoveRound(s: State, g: nat) returns (t: State)
    requires g < SIGNOFF && s.pc == After(g)
    ensures t == s.(pc := Announced(g + 1), status := AwaitingStatus(g + 1))
    ensures CanComplete(t, g + 1) ==> CanComplete(s, g + 1)
  {
    var on;
    on, t := MovesOn(s);
    if CanComplete(t, g + 1) {
      var acts, u := QuietComplete(s, on, t, g + 1);
    }
  }

  lemma SignedOffCompletes(s: State)
    requires s.pc == After(SIGNOFF)
    ensures CanComplete(s, NONE)
  {
    var t := Next(s, Resume);
    QuietStep(s, Resume, [], t);
    QuietRun(s, [Resume] + [], t);
    assert GatesFrom(NONE) == {};
  }

  /** On from a wait that the worker has passed, gate by gate. */
  lemma PassedCompletes(s: State, g: nat)
    requires g <= SIGNOFF && s.pc == After(g) && s.net == Net(false, false, Idle)
    ensures CanComplete(s, g + 1)
    decreases SIGNOFF - g
  {
    if g == SIGNOFF {
      SignedOffCompletes(s);
    } else {
      var t := MoveRound(s, g);
      var u := GateRound(t, g + 1);
      PassedCompletes(u, g + 1);
    }
  }

  /** The login wait, released by one continue. */
  lemma LoginCompletes(s: State) returns (acts: seq<Action>, t: State)
    requires s.pc == Announced(LOGIN) && s.net == Net(true, false, Idle)
    ensures RunsTo(s, acts, t) && HarmlessRun(s, acts) && t.status == COMPLETED
    ensures t.approved == s.approved + GatesFrom(1) && t.passed == s.passed + {LOGIN} + GatesFrom(1)
  {
    var pass, s1 := FlagReleases(s);
    PassedCompletes(s1, LOGIN);
    acts, t := QuietComplete(s, pass, s1, 1);
  }

  lemma AllGates()
    ensures GatesFrom(1) == {1, 2, 3, 4, 5}
  {
    assert GatesFrom(4) == {4, 5};
    assert GatesFrom(2) == {2, 3, 4, 5};
  }

  /** From the start, one continue and the five approvals complete an execution; nothing else is needed. */
  lemma FiveApprovalsComplete() returns (acts: seq<Action>, t: State)
    ensures RunsTo(START, acts, t) && HarmlessRun(START, acts)
    ensures t.status == COMPLETED && t.approved == {1, 2, 3, 4, 5} && t.passed == {0, 1, 2, 3, 4, 5}
  {
    var s1 := Next(START, Announce);
    var s2 := Next(s1, ContinueAfterLogin);
    acts, t := LoginCompletes(s2);
    AllGates();
    Prepend(s1, ContinueAfterLogin, s2, acts, t);
    acts := [ContinueAfterLogin] + acts;
    Prepend(START, Announce, s1, acts, t);
    acts := [Announce] + acts;
  }

  // ---------------------------------------------------------------------------------------
  // The API handlers
  // ---------------------------------------------------------------------------------------

  datatype Response = Accepted | Forbidden(status: Status) | UrlNeeded

  /** The execution row, its approvals and its Redis keys, as the handlers of one execution see them. */
  class ExecutionHandlers {
    var net: Net
    var pc: Pc
    var status: Status
    var approved: set<nat>
    var passed: set<nat>
    var unsent: nat
    var stamped: set<Status>
    var queuedJobs: nat

    ghost function View(): State
      reads this
    {
      State(net, pc, status, approved, passed, unsent)
    }

    /** `resumeStlc`: a pre-login gate queues a fresh job, a post-login gate publishes a continue. */
    method ResumeStlc(requeue: bool)
      modifies this`net, this`queuedJobs
      ensures requeue ==> net == old(net) && queuedJobs == old(queuedJobs) + 1
      ensures !requeue ==> Published(old(net), net, ContinueMessage) && queuedJobs == old(queuedJobs)
      ensures !requeue ==> net == Step(old(net), PublishContinue)
    {
      if !requeue {
        net := Step(net, PublishContinue);
        return;
      }
      queuedJobs := queuedJobs + 1;
    }

    /**
     The clarify, design, environment and data handlers; `urlUsable` is whether the project has an
     application URL. All but clarify stamp the project; a new job starts from the stamps.
     */
    method HandleApprovePreLogin(awaited: Status, urlUsable: bool) returns (r: Response)
      requires PreLoginStatus(awaited) && awaited != RUNNING
      modifies this
      ensures r == if old(status) != awaited then Forbidden(old(status))
                   else if awaited == AWAITING_DATA_APPROVAL && !urlUsable then UrlNeeded
                   else Accepted
      ensures r.Accepted? ==> CanDo(old(View()), ApprovePreLogin) && View() == Next(old(View()), ApprovePreLogin)
                              && status == RUNNING && net == old(net)
                              && queuedJobs == old(queuedJobs) + 1
                              && stamped == old(stamped) + {awaited} - {AWAITING_CLARIFICATION}
      ensures !r.Accepted? ==> View() == old(View()) && queuedJobs == old(queuedJobs) && stamped == old(stamped)
    {
      if status != awaited {
        return Forbidden(status);
      }
      if awaited == AWAITING_DATA_APPROVAL && !urlUsable {
        return UrlNeeded;
      }
      stamped := stamped + {awaited} - {AWAITING_CLARIFICATION};
      status := RUNNING;
      ResumeStlc(true);
      r := Accepted;
    }

    /**
     `approveTestExecution`, `approveDefects`, `approveAutomation`, `approveReport`, `approveQaSignoff`.
     An accepted approval releases the worker's wait at that gate, unless a cancel is on its way or
     the wait was settled before.
     */
    method HandleApprove(g: nat) returns (r: Response)
      requires 1 <= g <= SIGNOFF
      modifies this
      ensures r == if old(status) == (match g
                                      case 1 => AWAITING_EXECUTION_APPROVAL
                                      case 2 => AWAITING_DEFECT_APPROVAL
                                      case 3 => AWAITING_AUTOMATION_APPROVAL
                                      case 4 => AWAITING_REPORT_APPROVAL
                                      case _ => AWAITING_QA_SIGNOFF)
                   then Accepted else Forbidden(old(status))
      ensures r.Accepted? ==> status == RUNNING && approved == old(approved) + {g}
      ensures r.Accepted? ==> Published(old(net), net, ContinueMessage) && net.continueFlag
      ensures r.Accepted? && old(Open(View(), g)) ==> CanPass(View(), g)
      ensures View() == if r.Accepted? then Next(old(View()), Approve(g)) else old(View())
      ensures queuedJobs == old(queuedJobs) && stamped == old(stamped)
    {
      if status != AwaitingStatus(g) {
        return Forbidden(status);
      }
      ghost var before := View();
      approved := approved + {g};
      status := RUNNING;
      ResumeStlc(false);
      r := Accepted;
      if Open(before, g) {
        ApprovalCanPass(before, g);
      }
    }

    method HandleContinueAfterLogin() returns (r: Response)
      modifies this
      ensures r == if old(status) == AWAITING_LOGIN || old(status) == RUNNING then Accepted else Forbidden(old(status))
      ensures r.Accepted? ==> status == RUNNING && approved == old(approved)
      ensures r.Accepted? ==> Published(old(net), net, ContinueMessage) && net.continueFlag
      ensures View() == if r.Accepted? then Next(old(View()), ContinueAfterLogin) else old(View())
      ensures queuedJobs == old(queuedJobs) && stamped == old(stamped)
    {
      if status != AWAITING_LOGIN && status != RUNNING {
        return Forbidden(status);
      }
      status := RUNNING;
      ResumeStlc(false);
      r := Accepted;
    }

    /** A finished execution is returned as it is. */
    method HandleCancel()
      modifies this
      ensures old(status) == COMPLETED || old(status) == CANCELLED ==> View() == old(View())
      ensures old(status) != COMPLETED && old(status) != CANCELLED ==>
                status == CANCELLED && Published(old(net), net, CancelMessage) && net.cancelFlag
      ensures View() == if CanDo(old(View()), Cancel) then Next(old(View()), Cancel) else old(View())
      ensures queuedJobs == old(queuedJobs) && stamped == old(stamped)
    {
      if status == COMPLETED || status == CANCELLED {
        return;
      }
      status := CANCELLED;
      net := Step(net, PublishCancel);
    }
  }
}
