/**
 The part of an STLC execution before login. Its gates release the worker: a job attempt runs
 to the first open gate, stores what it needs and stops; the human's answer queues a new job,
 which starts again from the top and skips what is already approved. The clarification loop
 is replayed from round 1 by every such job.
 */
module PreLogin {
  import opened Common

  const MAX_CLARIFY_ROUNDS: nat := 3

  /** One stored clarification round; `questions` counts them. */
  datatype Round = Round(number: nat, questions: nat, answered: bool, skipped: bool)

  /** `requirementsSeemClear` */
  predicate SeemsClear(questions: nat, skip: bool, round: nat) {
    skip || round >= MAX_CLARIFY_ROUNDS || questions == 0
  }

  /** The most recently created row of a round, as the worker looks it up. */
  function Latest(rounds: seq<Round>, number: nat): (row: Option<Round>)
    ensures row.Some? ==> row.value in rounds && row.value.number == number
    ensures row.None? ==> forall r :: r in rounds ==> r.number != number
  {
    if rounds == [] then None
    else if rounds[|rounds| - 1].number == number then Some(rounds[|rounds| - 1])
    else Latest(rounds[..|rounds| - 1], number)
  }

  function Answer(rounds: seq<Round>, skip: bool): (out: seq<Round>)
    ensures |out| == |rounds|
    ensures forall i :: 0 <= i < |rounds| ==>
              out[i] == if rounds[i].answered then rounds[i]
                        else rounds[i].(answered := true, skipped := skip)
  {
    seq(|rounds|, i requires 0 <= i < |rounds| =>
      if rounds[i].answered then rounds[i] else rounds[i].(answered := true, skipped := skip))
  }

  // ---------------------------------------------------------------------------------------
  // Clarification rounds, with API calls landing anywhere inside a job
  // ---------------------------------------------------------------------------------------

  /** `Looping(k)` has finished round k; `Asking(k)` waits for the clarification agent's questions. */
  datatype Pc = Idle | Looping(done: nat) | Asking(round: nat) | BeyondClarification

  datatype Clarifying = Clarifying(pc: Pc, rounds: seq<Round>, awaiting: bool)

  datatype Action =
    | StartJob
    | LookUp
    | StoreRound(questions: nat)
    | LeaveLoop
    | EndJob
    | Clarify(skip: bool)

  predicate CanDo(s: Clarifying, a: Action) {
    match a
    case StartJob => s.pc.Idle?
    case LookUp => s.pc.Looping? && s.pc.done < MAX_CLARIFY_ROUNDS
    case StoreRound(_) => s.pc.Asking?
    case LeaveLoop => s.pc.Looping? && s.pc.done >= MAX_CLARIFY_ROUNDS
    case EndJob => s.pc.BeyondClarification?
    case Clarify(_) => s.awaiting
  }

  /** One database access of the worker, or one whole `clarify` call of the API. */
  function Next(s: Clarifying, a: Action): Clarifying
    requires CanDo(s, a)
  {
    match a
    case StartJob => s.(pc := Looping(0), awaiting := false)
    case LookUp =>
      var k := s.pc.done + 1;
      (match Latest(s.rounds, k)
       case Some(row) =>
         if !row.answered then s.(pc := Idle, awaiting := true)
         else if SeemsClear(row.questions, row.skipped, k) then s.(pc := BeyondClarification)
         else s.(pc := Looping(k))
       case None => s.(pc := Asking(k), awaiting := true))
    case StoreRound(q) =>
      var rounds := s.rounds + [Round(s.pc.round, q, false, false)];
      if q == 0 then s.(pc := BeyondClarification, rounds := rounds)
      else s.(pc := Idle, rounds := rounds, awaiting := true)
    case LeaveLoop => s.(pc := BeyondClarification)
    case EndJob => s.(pc := Idle, awaiting := false)
    case Clarify(skip) => s.(rounds := Answer(s.rounds, skip), awaiting := false)
  }

  /** The round had questions, and they were answered rather than skipped. */
  predicate TrulyAnswered(r: Round) {
    r.answered && !r.skipped && r.questions > 0
  }

  /**
   Rounds are numbered from 1 without gap or repeat, and a round exists only after the one before had
   questions that were answered.
   */
  predicate WellKept(rounds: seq<Round>) {
    && |rounds| <= MAX_CLARIFY_ROUNDS
    && (forall i :: 0 <= i < |rounds| ==> rounds[i].number == i + 1)
    && (forall i :: 0 <= i < |rounds| - 1 ==> TrulyAnswered(rounds[i]))
  }

  predicate AnsweredUpTo(rounds: seq<Round>, n: nat)
    requires n <= |rounds|
  {
    forall i :: 0 <= i < n ==> rounds[i].answered && (i + 1 < MAX_CLARIFY_ROUNDS ==> TrulyAnswered(rounds[i]))
  }

  predicate Inv(s: Clarifying) {
    && WellKept(s.rounds)
    && (s.pc.Looping? ==> s.pc.done <= |s.rounds| && AnsweredUpTo(s.rounds, s.pc.done))
    && (s.pc.Asking? ==> s.pc.round == |s.rounds| + 1 <= MAX_CLARIFY_ROUNDS)
    && (s.pc.Asking? ==> AnsweredUpTo(s.rounds, |s.rounds|))
  }

  lemma LatestOfWellKept(rounds: seq<Round>, number: nat)
    requires WellKept(rounds) && number >= 1
    ensures Latest(rounds, number) == if number <= |rounds| then Some(rounds[number - 1]) else None
  {
    if number <= |rounds| {
      assert rounds[number - 1] in rounds;
    }
    var row := Latest(rounds, number);
    if row.Some? {
      var i :| 0 <= i < |rounds| && rounds[i] == row.value;
    }
  }

  lemma InvStep(s: Clarifying, a: Action)
    requires Inv(s) && CanDo(s, a)
    ensures Inv(Next(s, a))
  {
    if a == LookUp {
      LatestOfWellKept(s.rounds, s.pc.done + 1);
    }
  }

  /** A stored round keeps its number, its questions and, once given, its answer. */
  predicate Extends(rounds: seq<Round>, later: seq<Round>) {
    && |rounds| <= |later|
    && forall i :: 0 <= i < |rounds| ==>
         later[i].number == rounds[i].number && later[i].questions == rounds[i].questions &&
         (rounds[i].answered ==> later[i] == rounds[i])
  }

  ghost predicate RunsTo(s: Clarifying, acts: seq<Action>, t: Clarifying)
    decreases |acts|
  {
    if acts == [] then s == t
    else CanDo(s, acts[0]) && RunsTo(Next(s, acts[0]), acts[1..], t)
  }

  /**
   Over any history of jobs and clarify calls the stored rounds stay well kept, and a stored
   round is never replaced: only its answer is filled in, once.
   */
  lemma {:induction false} RoundsStayWellKept(s: Clarifying, acts: seq<Action>, t: Clarifying)
    requires Inv(s) && RunsTo(s, acts, t)
    ensures Inv(t) && Extends(s.rounds, t.rounds) && |t.rounds| <= MAX_CLARIFY_ROUNDS
    decreases |acts|
  {
    if acts != [] {
      InvStep(s, acts[0]);
      RoundsStayWellKept(Next(s, acts[0]), acts[1..], t);
    }
  }

  /** From an execution without rounds, after any history: contiguous, each once, answered in order, at most three. */
  lemma RoundsFromTheFirstJob(acts: seq<Action>, t: Clarifying)
    requires RunsTo(Clarifying(Idle, [], false), acts, t)
    ensures WellKept(t.rounds) && |t.rounds| <= MAX_CLARIFY_ROUNDS
  {
    RoundsStayWellKept(Clarifying(Idle, [], false), acts, t);
  }

  /**
   An accepted clarify call answers the open round exactly when an unanswered round is stored; it
   always changes the status, so one that comes while the agent is still asking is lost.
   */
  lemma ClarifyAnswersIffRoundIsOpen(s: Clarifying, skip: bool)
    requires Inv(s) && CanDo(s, Clarify(skip))
    ensures var t := Next(s, Clarify(skip));
            && !t.awaiting && |t.rounds| == |s.rounds|
            && (t.rounds != s.rounds <==> s.rounds != [] && !s.rounds[|s.rounds| - 1].answered)
            && (s.pc.Asking? ==> t.rounds == s.rounds)
            && (t.rounds != s.rounds ==>
                t.rounds[|t.rounds| - 1] == Round(|s.rounds|, s.rounds[|s.rounds| - 1].questions, true, skip))
            && (s.rounds != [] ==> t.rounds[..|t.rounds| - 1] == s.rounds[..|s.rounds| - 1])
  {
    var t := Next(s, Clarify(skip));
    if t.rounds != s.rounds {
      var i :| 0 <= i < |s.rounds| && t.rounds[i] != s.rounds[i];
      assert i == |s.rounds| - 1;
    }
  }

  /** The first job awaits answers but has stored no question yet: the human's call answers nothing. */
  lemma EarlyAnswerIsLost(questions: nat, skip: bool) returns (acts: seq<Action>, t: Clarifying)
    requires questions > 0
    ensures RunsTo(Clarifying(Idle, [], false), acts, t) && Clarify(skip) in acts
    ensures t == Clarifying(Idle, [Round(1, questions, false, false)], true)
  {
    var s0 := Clarifying(Idle, [], false);
    var s1 := Next(s0, StartJob);
    var s2 := Next(s1, LookUp);
    var s3 := Next(s2, Clarify(skip));
    t := Next(s3, StoreRound(questions));
    acts := Then(s3, StoreRound(questions), t, [], t);
    acts := Then(s2, Clarify(skip), s3, acts, t);
    acts := Then(s1, LookUp, s2, acts, t);
    acts := Then(s0, StartJob, s1, acts, t);
  }

  // ---------------------------------------------------------------------------------------
  // One job attempt
  // ---------------------------------------------------------------------------------------

  datatype Stamps = Stamps(design: bool, environment: bool, data: bool)

  datatype Gate = CLARIFICATION | DESIGN | ENVIRONMENT | DATA

  datatype Outcome = PausedAt(gate: Gate) | ReachedLogin

  datatype Work = ReadRequirements | DesignCases | SetUpEnvironment | GroundCases | PrepareData | OpenLogin

  datatype LoopEnd = LoopEnd(clear: bool, rounds: seq<Round>)

  /** The rest of the loop after `done` rounds; `ask(k)` is what the agent asks in round k. */
  function ClarifyFrom(rounds: seq<Round>, ask: nat -> nat, done: nat): LoopEnd
    decreases MAX_CLARIFY_ROUNDS - done
  {
    if done >= MAX_CLARIFY_ROUNDS then LoopEnd(true, rounds)
    else
      var k := done + 1;
      match Latest(rounds, k)
      case Some(row) =>
        if !row.answered then LoopEnd(false, rounds)
        else if SeemsClear(row.questions, row.skipped, k) then LoopEnd(true, rounds)
        else ClarifyFrom(rounds, ask, k)
      case None => LoopEnd(ask(k) == 0, rounds + [Round(k, ask(k), false, false)])
  }

  method ClarifyLoop(stored: seq<Round>, ask: nat -> nat) returns (end: LoopEnd)
    ensures end == ClarifyFrom(stored, ask, 0)
  {
    var rounds := stored;
    var clear := false;
    var round := 0;
    while !clear && round < MAX_CLARIFY_ROUNDS
      invariant round <= MAX_CLARIFY_ROUNDS && rounds == stored
      invariant ClarifyFrom(stored, ask, 0) ==
                if clear then LoopEnd(true, stored) else ClarifyFrom(stored, ask, round)
      decreases MAX_CLARIFY_ROUNDS - round, !clear
    {
      round := round + 1;
      var prior := Latest(rounds, round);
      if prior.Some? && prior.value.answered {
        clear := SeemsClear(prior.value.questions, prior.value.skipped, round);
        continue;
      }
      if prior.Some? {
        return LoopEnd(false, rounds);
      }
      var questions := ask(round);
      rounds := rounds + [Round(round, questions, false, false)];
      return LoopEnd(questions == 0, rounds);
    }
    end := LoopEnd(true, rounds);
  }

  /** One round of the loop, on rounds that are well kept. */
  lemma ClarifyFromStep(rounds: seq<Round>, ask: nat -> nat, done: nat)
    requires WellKept(rounds) && done <= |rounds| && done < MAX_CLARIFY_ROUNDS
    ensures ClarifyFrom(rounds, ask, done) ==
            if done == |rounds|
            then LoopEnd(ask(done + 1) == 0, rounds + [Round(done + 1, ask(done + 1), false, false)])
            else if !rounds[done].answered then LoopEnd(false, rounds)
            else if SeemsClear(rounds[done].questions, rounds[done].skipped, done + 1) then LoopEnd(true, rounds)
            else ClarifyFrom(rounds, ask, done + 1)
  {
    LatestOfWellKept(rounds, done + 1);
  }

  lemma NewRoundIsWellKept(rounds: seq<Round>, questions: nat)
    requires WellKept(rounds) && |rounds| < MAX_CLARIFY_ROUNDS && AnsweredUpTo(rounds, |rounds|)
    ensures WellKept(rounds + [Round(|rounds| + 1, questions, false, false)])
  {
  }

  /** What the loop leaves: well kept rounds, none changed, and after a pause one that waits for its answer last. */
  predicate EndsWell(rounds: seq<Round>, end: LoopEnd) {
    && WellKept(end.rounds) && rounds <= end.rounds
    && (!end.clear ==> end.rounds != [] && !end.rounds[|end.rounds| - 1].answered)
  }

  lemma NewRoundEndsWell(rounds: seq<Round>, questions: nat)
    requires WellKept(rounds) && |rounds| < MAX_CLARIFY_ROUNDS && AnsweredUpTo(rounds, |rounds|)
    ensures EndsWell(rounds, LoopEnd(questions == 0, rounds + [Round(|rounds| + 1, questions, false, false)]))
  {
    NewRoundIsWellKept(rounds, questions);
  }

  lemma OpenRoundEndsWell(rounds: seq<Round>, done: nat)
    requires WellKept(rounds) && done < |rounds| && !rounds[done].answered
    ensures EndsWell(rounds, LoopEnd(false, rounds))
  {
    assert done == |rounds| - 1;
  }

  lemma {:induction false} ClarifyFromWellKept(rounds: seq<Round>, ask: nat -> nat, done: nat)
    requires WellKept(rounds) && done <= |rounds| && AnsweredUpTo(rounds, done)
    ensures EndsWell(rounds, ClarifyFrom(rounds, ask, done))
    decreases MAX_CLARIFY_ROUNDS - done
  {
    if done < MAX_CLARIFY_ROUNDS {
      ClarifyFromStep(rounds, ask, done);
      if done == |rounds| {
        NewRoundEndsWell(rounds, ask(done + 1));
      } else if !rounds[done].answered {
        OpenRoundEndsWell(rounds, done);
      } else if !SeemsClear(rounds[done].questions, rounds[done].skipped, done + 1) {
        ClarifyFromWellKept(rounds, ask, done + 1);
      }
    }
  }

  /** What looking up the next round decides, on both sides. */
  lemma LookUpMatchesLoop(s: Clarifying, ask: nat -> nat)
    requires Inv(s) && s.pc.Looping? && s.pc.done < MAX_CLARIFY_ROUNDS
    ensures var end := ClarifyFrom(s.rounds, ask, s.pc.done);
            var s1 := Next(s, LookUp);
            s1.rounds == s.rounds && Inv(s1) &&
            match s1.pc
            case Looping(k) => k == s.pc.done + 1 && end == ClarifyFrom(s.rounds, ask, k)
            case Asking(k) => end == LoopEnd(ask(k) == 0, s.rounds + [Round(k, ask(k), false, false)])
            case BeyondClarification => end == LoopEnd(true, s.rounds)
            case Idle => end == LoopEnd(false, s.rounds)
  {
    LatestOfWellKept(s.rounds, s.pc.done + 1);
  }

  /** An uninterrupted job takes exactly the steps of the loop. */
  lemma {:induction false} LoopIsUninterruptedJob(s: Clarifying, ask: nat -> nat)
    returns (acts: seq<Action>, t: Clarifying)
    requires Inv(s) && s.pc.Looping? && s.pc.done <= MAX_CLARIFY_ROUNDS
    ensures RunsTo(s, acts, t) && t.rounds == ClarifyFrom(s.rounds, ask, s.pc.done).rounds
    ensures t.pc == if ClarifyFrom(s.rounds, ask, s.pc.done).clear then BeyondClarification else Idle
    decreases MAX_CLARIFY_ROUNDS - s.pc.done
  {
    if s.pc.done == MAX_CLARIFY_ROUNDS {
      t := Next(s, LeaveLoop);
      acts := Then(s, LeaveLoop, t, [], t);
      return;
    }
    LookUpMatchesLoop(s, ask);
    var s1 := Next(s, LookUp);
    if s1.pc.Looping? {
      acts, t := LoopIsUninterruptedJob(s1, ask);
    } else if s1.pc.Asking? {
      t := Next(s1, StoreRound(ask(s1.pc.round)));
      acts := Then(s1, StoreRound(ask(s1.pc.round)), t, [], t);
    } else {
      acts, t := [], s1;
    }
    acts := Then(s, LookUp, s1, acts, t);
  }

  lemma Then(s: Clarifying, a: Action, s1: Clarifying, acts: seq<Action>, t: Clarifying) returns (all: seq<Action>)
    requires CanDo(s, a) && s1 == Next(s, a) && RunsTo(s1, acts, t)
    ensures RunsTo(s, all, t) && all == [a] + acts
  {
    all := [a] + acts;
    assert all[1..] == acts;
  }

  /** Whether the loop goes on to ask a new round. */
  predicate AsksAnew(rounds: seq<Round>) {
    rounds == [] || (|rounds| < MAX_CLARIFY_ROUNDS && TrulyAnswered(rounds[|rounds| - 1]))
  }

  lemma {:induction false} LoopReachesLast(rounds: seq<Round>, ask: nat -> nat, done: nat)
    requires WellKept(rounds) && done < |rounds|
    ensures ClarifyFrom(rounds, ask, done) == ClarifyFrom(rounds, ask, |rounds| - 1)
    decreases |rounds| - done
  {
    if done < |rounds| - 1 {
      assert TrulyAnswered(rounds[done]);
      ClarifyFromStep(rounds, ask, done);
      LoopReachesLast(rounds, ask, done + 1);
    }
  }

  function AskedAnew(rounds: seq<Round>, ask: nat -> nat): seq<Round> {
    rounds + [Round(|rounds| + 1, ask(|rounds| + 1), false, false)]
  }

  /** On well kept rounds only the last one matters. */
  lemma LoopByLastRound(rounds: seq<Round>, ask: nat -> nat)
    requires WellKept(rounds)
    ensures ClarifyFrom(rounds, ask, 0) ==
            if AsksAnew(rounds) then LoopEnd(ask(|rounds| + 1) == 0, AskedAnew(rounds, ask))
            else LoopEnd(rounds[|rounds| - 1].answered, rounds)
  {
    var n := |rounds|;
    if n > 0 {
      LoopReachesLast(rounds, ask, 0);
      ClarifyFromStep(rounds, ask, n - 1);
    }
    if AsksAnew(rounds) {
      ClarifyFromStep(rounds, ask, n);
    }
  }

  datatype Attempt = Attempt(outcome: Outcome, rounds: seq<Round>, works: seq<Work>)

  /** A last round that waits for its answer: it was there before the attempt, or it has a question. */
  predicate LeavesOpenRound(before: seq<Round>, after: seq<Round>) {
    after != [] && !after[|after| - 1].answered && (|after| == |before| || after[|after| - 1].questions > 0)
  }

  /** Without the design stamp: clarified before designing, and stopped while a round is open. */
  predicate StopsToClarify(reviewed: bool, rounds: seq<Round>, ask: nat -> nat, a: Attempt) {
    && (a.outcome == PausedAt(CLARIFICATION) <==> !reviewed && LeavesOpenRound(rounds, a.rounds))
    && (a.outcome != PausedAt(CLARIFICATION) ==> a.outcome == PausedAt(DESIGN))
    && (DesignCases in a.works <==> a.outcome == PausedAt(DESIGN))
    && a.works == [ReadRequirements] + (if a.outcome == PausedAt(DESIGN) then [DesignCases] else [])
    && a.rounds == if !reviewed && AsksAnew(rounds) then AskedAnew(rounds, ask) else rounds
  }

  /** With it: the first of the other two gates that is open, and the work of the gates before it. */
  predicate StopsAtOpenGate(rounds: seq<Round>, second: Stamps, third: Stamps, a: Attempt) {
    && a.rounds == rounds
    && (a.outcome == PausedAt(ENVIRONMENT) <==> !second.environment)
    && (a.outcome == PausedAt(DATA) <==> second.environment && !third.data)
    && (a.outcome == ReachedLogin <==> second.environment && third.data)
    && a.works == match a.outcome
                  case PausedAt(ENVIRONMENT) => [SetUpEnvironment]
                  case PausedAt(_) => [GroundCases, PrepareData]
                  case ReachedLogin => [GroundCases, GroundCases, OpenLogin]
  }

  /**
   `runStlcExecution` up to the login wait. The stamps are loaded three times, and each load may
   see what the API wrote since the last one. `reviewed` skips the clarification loop.
   */
  method RunAttempt(reviewed: bool, rounds: seq<Round>, ask: nat -> nat,
                    first: Stamps, second: Stamps, third: Stamps) returns (a: Attempt)
    ensures a == AttemptOf(reviewed, rounds, ask, first, second, third)
    ensures first.design ==> StopsAtOpenGate(rounds, second, third, a)
    ensures !first.design && WellKept(rounds) ==> StopsToClarify(reviewed, rounds, ask, a)
  {
    if !first.design && WellKept(rounds) {
      AttemptClarifies(reviewed, rounds, ask, first, second, third);
    }
    var works := [];
    if !first.design {
      works := works + [ReadRequirements];
      var stored := rounds;
      if !reviewed {
        var end := ClarifyLoop(rounds, ask);
        stored := end.rounds;
        if !end.clear {
          return Attempt(PausedAt(CLARIFICATION), stored, works);
        }
      }
      works := works + [DesignCases];
      return Attempt(PausedAt(DESIGN), stored, works);
    }
    if !second.environment {
      works := works + [SetUpEnvironment];
      return Attempt(PausedAt(ENVIRONMENT), rounds, works);
    }
    works := works + [GroundCases];
    if !third.data {
      works := works + [PrepareData];
      return Attempt(PausedAt(DATA), rounds, works);
    }
    works := works + [GroundCases];
    works := works + [OpenLogin];
    a := Attempt(ReachedLogin, rounds, works);
  }

  /** Each outcome of an attempt, with the work done on the way to it. */
  function AttemptOf(reviewed: bool, rounds: seq<Round>, ask: nat -> nat,
                     first: Stamps, second: Stamps, third: Stamps): Attempt
  {
    if first.design && second.environment && third.data
    then Attempt(ReachedLogin, rounds, [GroundCases, GroundCases, OpenLogin])
    else if first.design && second.environment
    then Attempt(PausedAt(DATA), rounds, [GroundCases, PrepareData])
    else if first.design
    then Attempt(PausedAt(ENVIRONMENT), rounds, [SetUpEnvironment])
    else if reviewed
    then Attempt(PausedAt(DESIGN), rounds, [ReadRequirements, DesignCases])
    else
      var end := ClarifyFrom(rounds, ask, 0);
      if end.clear then Attempt(PausedAt(DESIGN), end.rounds, [ReadRequirements, DesignCases])
      else Attempt(PausedAt(CLARIFICATION), end.rounds, [ReadRequirements])
  }

  /** An unanswered round stops every attempt that is not past design, before the cases are designed. */
  lemma AttemptClarifies(reviewed: bool, rounds: seq<Round>, ask: nat -> nat,
                         first: Stamps, second: Stamps, third: Stamps)
    requires WellKept(rounds) && !first.design
    ensures StopsToClarify(reviewed, rounds, ask, AttemptOf(reviewed, rounds, ask, first, second, third))
  {
    LoopByLastRound(rounds, ask);
  }

  predicate Stamped(g: Gate, first: Stamps, second: Stamps, third: Stamps) {
    match g
    case CLARIFICATION => false
    case DESIGN => first.design
    case ENVIRONMENT => second.environment
    case DATA => third.data
  }

  /**
   An attempt reaches login exactly when each of the three stamps was set when it was loaded;
   otherwise it stops at a gate that was open, having done no work that belongs beyond it.
   */
  lemma LoginNeedsEveryStamp(reviewed: bool, rounds: seq<Round>, ask: nat -> nat,
                             first: Stamps, second: Stamps, third: Stamps)
    ensures var a := AttemptOf(reviewed, rounds, ask, first, second, third);
            && (a.outcome.ReachedLogin? <==> first.design && second.environment && third.data)
            && (OpenLogin in a.works <==> a.outcome.ReachedLogin?)
            && (PrepareData in a.works ==> first.design && second.environment)
            && (SetUpEnvironment in a.works ==> first.design)
            && (DesignCases in a.works || ReadRequirements in a.works ==> !first.design && a.outcome.PausedAt?)
            && (a.outcome.PausedAt? ==> !Stamped(a.outcome.gate, first, second, third))
  {
  }

  // ---------------------------------------------------------------------------------------
  // From queued to login
  // ---------------------------------------------------------------------------------------

  datatype Db = Db(stamps: Stamps, rounds: seq<Round>)

  datatype Tally = Tally(approvals: nat, answers: nat)

  /** How often a human must act before login: open stamps, and clarification rounds not yet answered. */
  function OpenStamps(s: Stamps): nat {
    (if s.design then 0 else 1) + (if s.environment then 0 else 1) + (if s.data then 0 else 1)
  }

  function AnsweredRounds(rounds: seq<Round>): nat {
    if rounds == [] then 0
    else if rounds[|rounds| - 1].answered then |rounds| else |rounds| - 1
  }

  function RoundsLeft(db: Db, reviewed: bool): nat
    requires WellKept(db.rounds)
  {
    if reviewed || db.stamps.design then 0 else MAX_CLARIFY_ROUNDS - AnsweredRounds(db.rounds)
  }

  function HumanAct(db: Db, g: Gate, skip: bool): Db {
    match g
    case CLARIFICATION => db.(rounds := Answer(db.rounds, skip))
    case DESIGN => db.(stamps := db.stamps.(design := true))
    case ENVIRONMENT => db.(stamps := db.stamps.(environment := true))
    case DATA => db.(stamps := db.stamps.(data := true))
  }

  function AttemptOn(db: Db, reviewed: bool, ask: nat -> nat): Attempt {
    AttemptOf(reviewed, db.rounds, ask, db.stamps, db.stamps, db.stamps)
  }

  /** One attempt and the human's answer to it always bring login closer. */
  lemma HumanActGetsCloser(db: Db, reviewed: bool, ask: nat -> nat, skip: bool)
    requires WellKept(db.rounds) && AttemptOn(db, reviewed, ask).outcome.PausedAt?
    ensures var a := AttemptOn(db, reviewed, ask);
            var db1 := HumanAct(db.(rounds := a.rounds), a.outcome.gate, skip);
            && WellKept(db1.rounds)
            && OpenStamps(db1.stamps) <= OpenStamps(db.stamps)
            && RoundsLeft(db1, reviewed) <= RoundsLeft(db, reviewed)
            && (if a.outcome.gate.CLARIFICATION?
                then RoundsLeft(db1, reviewed) < RoundsLeft(db, reviewed)
                else OpenStamps(db1.stamps) < OpenStamps(db.stamps))
  {
    ClarifyFromWellKept(db.rounds, ask, 0);
  }

  /** Attempts and human answers in turn until login; the human's skips are arbitrary. */
  ghost function Drive(db: Db, reviewed: bool, ask: nat -> nat, skip: Db -> bool): Tally
    requires WellKept(db.rounds)
    decreases OpenStamps(db.stamps) + RoundsLeft(db, reviewed)
  {
    var a := AttemptOn(db, reviewed, ask);
    match a.outcome
    case ReachedLogin => Tally(0, 0)
    case PausedAt(g) =>
      HumanActGetsCloser(db, reviewed, ask, skip(db));
      var rest := Drive(HumanAct(db.(rounds := a.rounds), g, skip(db)), reviewed, ask, skip);
      if g == CLARIFICATION then rest.(answers := rest.answers + 1)
      else rest.(approvals := rest.approvals + 1)
  }

  /** With no stamp cleared, login is reached after one approval per open stamp and at most three answers. */
  lemma {:induction false} LoginWithinSixActs(db: Db, reviewed: bool, ask: nat -> nat, skip: Db -> bool)
    requires WellKept(db.rounds)
    ensures var t := Drive(db, reviewed, ask, skip);
            t.approvals == OpenStamps(db.stamps) <= 3 && t.answers <= RoundsLeft(db, reviewed) <= 3
    decreases OpenStamps(db.stamps) + RoundsLeft(db, reviewed)
  {
    var a := AttemptOn(db, reviewed, ask);
    if a.outcome.PausedAt? {
      HumanActGetsCloser(db, reviewed, ask, skip(db));
      LoginWithinSixActs(HumanAct(db.(rounds := a.rounds), a.outcome.gate, skip(db)), reviewed, ask, skip);
    }
  }
}
