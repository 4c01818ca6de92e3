/**
 Handing TCMS runs to local runners. A run waits in PENDING; runners poll, claim it with a
 guarded write on the status, then write their id into the selection with a plain write and
 fetch the job. Everyone else writes the same row at any moment, guarded or not.
 */
module RunHandout {
  import opened Common

  datatype Status = PENDING | QUEUED | RUNNING | FAILED | COMPLETED | CANCELLED

  datatype Target = LOCAL | CLOUD | SERVER

  type RunnerId = nat
  type UserId = nat

  datatype Selection = Selection(target: Option<Target>, user: Option<UserId>, claimedBy: Option<RunnerId>)

  datatype Row = Row(status: Status, selection: Selection)

  /** `isWaitingLocalRunner` */
  predicate Waiting(row: Row) {
    row.status == PENDING && row.selection.target == Some(LOCAL) && row.selection.claimedBy.None?
  }

  predicate Terminal(s: Status) {
    s == COMPLETED || s == CANCELLED
  }

  // ---------------------------------------------------------------------------------------
  // One run, any number of runners
  // ---------------------------------------------------------------------------------------

  /** A runner inside `claimNext`: the row it read, then the selection it claimed with. */
  datatype Control = Seen(row: Row) | Won(selection: Selection) | Claimed

  /**
   `jobs` are the jobs handed out and not yet completed, by runner. `claims` is the history of
   successful guarded writes, each with the selection the runner read; `queued` counts the writes
   that put the run into PENDING, `handed` the jobs returned for it.
   */
  datatype State = State(row: Row, runners: map<RunnerId, Control>, jobs: multiset<RunnerId>,
                         claims: seq<Selection>, queued: nat, handed: nat)

  /**
   `FinishJob` is the guarded write of `completeJob`, with the selection it read before; `Vanish`
   is a claim that breaks off and `Abandon` a job that is never completed. The last four stand for
   all other clients: `Expire` is the guarded no-op on the status, `Queue` a write of PENDING,
   `PlainStatus` and `PlainSelection` are unguarded writes whose value may come from an old read
   (start, stop, complete, edit, the cloud job's RUNNING).
   */
  datatype Action =
    | Poll(runner: RunnerId)
    | TryClaim(runner: RunnerId, user: UserId)
    | WriteClaim(runner: RunnerId)
    | HandOut(runner: RunnerId)
    | FinishJob(runner: RunnerId, cancelled: bool, seen: Selection)
    | Vanish(runner: RunnerId)
    | Abandon(runner: RunnerId)
    | Expire
    | Queue(selection: Selection)
    | PlainStatus(status: Status)
    | PlainSelection(selection: Selection)

  predicate CanDo(s: State, a: Action) {
    match a
    case Poll(r) => r !in s.runners && s.row.status == PENDING
    case TryClaim(r, _) => r in s.runners && s.runners[r].Seen?
    case WriteClaim(r) => r in s.runners && s.runners[r].Won?
    case HandOut(r) => r in s.runners && s.runners[r].Claimed?
    case FinishJob(r, _, _) => r in s.jobs
    case PlainStatus(st) => st != PENDING
    case _ => true
  }

  predicate MayClaim(row: Row, user: UserId) {
    Waiting(row) && (row.selection.user.None? || row.selection.user == Some(user))
  }

  function Next(s: State, a: Action): State
    requires CanDo(s, a)
  {
    match a
    case Poll(r) => s.(runners := s.runners[r := Seen(s.row)])
    case TryClaim(r, user) =>
      var seen := s.runners[r].row;
      if MayClaim(seen, user) && s.row.status == PENDING
      then s.(row := s.row.(status := RUNNING), runners := s.runners[r := Won(seen.selection)],
              claims := s.claims + [seen.selection])
      else s.(runners := s.runners - {r})
    case WriteClaim(r) =>
      s.(row := s.row.(selection := s.runners[r].selection.(claimedBy := Some(r))),
         runners := s.runners[r := Claimed])
    case HandOut(r) =>
      s.(runners := s.runners - {r}, jobs := s.jobs + multiset{r}, handed := s.handed + 1)
    case FinishJob(r, cancelled, seen) =>
      var t := s.(jobs := s.jobs - multiset{r});
      if Terminal(s.row.status) then t
      else t.(row := Row(if cancelled then CANCELLED else RUNNING, seen.(claimedBy := Some(r))))
    case Vanish(r) => s.(runners := s.runners - {r})
    case Abandon(r) => s.(jobs := s.jobs - multiset{r})
    case Expire => if s.row.status == PENDING then s.(row := s.row.(status := PENDING)) else s
    case Queue(sel) => s.(row := Row(PENDING, sel), queued := s.queued + 1)
    case PlainStatus(st) => s.(row := s.row.(status := st))
    case PlainSelection(sel) => s.(row := s.row.(selection := sel))
  }

  /** A claim succeeds just when the run read was free for this user and the run is still PENDING. */
  lemma ClaimTakes(s: State, r: RunnerId, user: UserId)
    requires CanDo(s, TryClaim(r, user))
    ensures var t := Next(s, TryClaim(r, user));
            var seen := s.runners[r].row;
            var free := && s.row.status == PENDING && seen.status == PENDING
                        && seen.selection.target == Some(LOCAL) && seen.selection.claimedBy == None
                        && (seen.selection.user == None || seen.selection.user == Some(user));
            && (t.claims == if free then s.claims + [seen.selection] else s.claims)
            && (t.row.status == RUNNING <==> free || s.row.status == RUNNING)
            && t.row.selection == s.row.selection
            && (r in t.runners <==> free)
  {
  }

  ghost predicate RunsTo(s: State, acts: seq<Action>, t: State)
    decreases |acts|
  {
    if acts == [] then s == t
    else CanDo(s, acts[0]) && RunsTo(Next(s, acts[0]), acts[1..], t)
  }

  /** Runners whose claim succeeded and whose job is still to be returned. */
  function Holding(runners: map<RunnerId, Control>): set<RunnerId> {
    set r | r in runners && !runners[r].Seen?
  }

  /** Each time the run became PENDING pays for one claim. */
  predicate Paid(s: State) {
    s.handed + |Holding(s.runners)| + (if s.row.status == PENDING then 1 else 0) <= s.queued
  }

  lemma HoldingUpdate(runners: map<RunnerId, Control>, r: RunnerId, c: Control)
    ensures Holding(runners[r := c]) == if c.Seen? then Holding(runners) - {r} else Holding(runners) + {r}
    ensures Holding(runners - {r}) == Holding(runners) - {r}
  {
  }

  /** Holding grows by one with a successful claim and shrinks with the job's return. */
  lemma HoldingStep(s: State, a: Action)
    requires CanDo(s, a)
    ensures |Holding(Next(s, a).runners)| + (if a.HandOut? then 1 else 0) <=
            |Holding(s.runners)| + |Next(s, a).claims| - |s.claims|
  {
    match a {
      case Poll(r) => HoldingUpdate(s.runners, r, Seen(s.row));
      case TryClaim(r, user) =>
        HoldingUpdate(s.runners, r, Won(s.runners[r].row.selection));
        assert r !in Holding(s.runners);
      case WriteClaim(r) =>
        HoldingUpdate(s.runners, r, Claimed);
        assert r in Holding(s.runners) && Holding(s.runners) + {r} == Holding(s.runners);
      case HandOut(r) =>
        HoldingUpdate(s.runners, r, Claimed);
        assert r in Holding(s.runners);
      case Vanish(r) => HoldingUpdate(s.runners, r, Claimed);
      case _ =>
    }
  }

  lemma PaidStep(s: State, a: Action)
    requires Paid(s) && CanDo(s, a)
    ensures Paid(Next(s, a))
  {
    HoldingStep(s, a);
  }

  /** However runners, expiry, re-queueing and plain writes interleave, no more jobs are handed out than were queued. */
  lemma {:induction false} HandoutIsExclusive(s: State, acts: seq<Action>, t: State)
    requires Paid(s) && RunsTo(s, acts, t)
    ensures Paid(t) && t.handed <= t.queued
    decreases |acts|
  {
    if acts != [] {
      PaidStep(s, acts[0]);
      HandoutIsExclusive(Next(s, acts[0]), acts[1..], t);
    }
  }

  /** No plain write: only runners, `completeJob` and expiry. */
  predicate RunnerSide(acts: seq<Action>) {
    forall a :: a in acts ==> !a.Queue? && !a.PlainStatus? && !a.PlainSelection?
  }

  /** No runner gets to write down a claim. */
  predicate NoClaims(acts: seq<Action>) {
    forall a :: a in acts ==> !a.WriteClaim?
  }

  /** Nothing a runner does, at any stage of a claim or a job, changes a finished run's status. */
  lemma {:induction false} RunnersNeverReopen(s: State, acts: seq<Action>, t: State)
    requires Terminal(s.row.status) && RunsTo(s, acts, t) && RunnerSide(acts)
    ensures t.row.status == s.row.status && (NoClaims(acts) ==> t.row == s.row)
    decreases |acts|
  {
    if acts != [] {
      assert acts[0] in acts;
      RunnersNeverReopen(Next(s, acts[0]), acts[1..], t);
    }
  }

  // ---------------------------------------------------------------------------------------
  // When queueing a run again works
  // ---------------------------------------------------------------------------------------

  predicate Claimable(sel: Selection) {
    Waiting(Row(PENDING, sel))
  }

  /**
   What a client that queues the run after `n` claims expects: until the next claim the row is as it
   was queued, for any runner of the user to take, and the next claim takes what was queued.
   */
  predicate Honoured(n: nat, sel: Selection, t: State) {
    |t.claims| >= n && (if |t.claims| == n then t.row == Row(PENDING, sel) else t.claims[n] == sel)
  }

  /** Whatever the runners go on to do. */
  ghost predicate StaysHonoured(s: State, sel: Selection) {
    forall acts, t :: RunsTo(Next(s, Queue(sel)), acts, t) && RunnerSide(acts) ==> Honoured(|s.claims|, sel, t)
  }

  /**
   No earlier claim is still being written down, handed out or worked on, and no runner is about
   to claim with an older selection.
   */
  predicate Undisturbed(s: State, sel: Selection) {
    && Holding(s.runners) == {} && s.jobs == multiset{}
    && (forall r :: r in s.runners && s.runners[r].Seen? && Waiting(s.runners[r].row) ==>
          s.runners[r].row.selection == sel)
  }

  predicate StillQueued(n: nat, sel: Selection, t: State) {
    |t.claims| == n && t.row == Row(PENDING, sel) && Undisturbed(t, sel)
  }

  lemma QueuedStep(n: nat, sel: Selection, t: State, a: Action)
    requires StillQueued(n, sel, t) && CanDo(t, a) && RunnerSide([a])
    ensures StillQueued(n, sel, Next(t, a)) || (|Next(t, a).claims| > n && Next(t, a).claims[n] == sel)
  {
    var u := Next(t, a);
    assert a in [a];
    assert t.runners.Keys == Holding(t.runners) + (set r | r in t.runners && t.runners[r].Seen?);
    match a {
      case Poll(r) => assert Holding(u.runners) == {};
      case TryClaim(r, user) => assert r !in Holding(t.runners);
      case WriteClaim(r) => assert false;
      case HandOut(r) => assert false;
      case Vanish(r) => assert Holding(u.runners) == {};
      case _ =>
    }
  }

  lemma {:induction false} QueuedRun(n: nat, sel: Selection, s: State, acts: seq<Action>, t: State)
    requires StillQueued(n, sel, s) || (|s.claims| > n && s.claims[n] == sel)
    requires RunsTo(s, acts, t) && RunnerSide(acts)
    ensures StillQueued(n, sel, t) || (|t.claims| > n && t.claims[n] == sel)
    decreases |acts|
  {
    if acts != [] {
      assert acts[0] in acts;
      if StillQueued(n, sel, s) {
        QueuedStep(n, sel, s, acts[0]);
      }
      QueuedRun(n, sel, Next(s, acts[0]), acts[1..], t);
    }
  }

  lemma Prepend(s: State, a: Action, s1: State, acts: seq<Action>, t: State)
    requires CanDo(s, a) && s1 == Next(s, a) && RunsTo(s1, acts, t)
    ensures RunsTo(s, [a] + acts, t)
    ensures RunnerSide([a]) && RunnerSide(acts) ==> RunnerSide([a] + acts)
  {
    assert ([a] + acts)[1..] == acts;
    assert a in [a];
  }

  /** An outstanding job ends and turns the run it no longer belongs to into RUNNING. */
  lemma JobSwallows(s: State, r: RunnerId, sel: Selection) returns (acts: seq<Action>, t: State)
    requires s.row.status == PENDING && r in s.jobs
    ensures RunsTo(s, acts, t) && RunnerSide(acts) && t.claims == s.claims
    ensures t == s.(row := Row(RUNNING, sel.(claimedBy := Some(r))), jobs := s.jobs - multiset{r})
  {
    t := Next(s, FinishJob(r, false, sel));
    Prepend(s, FinishJob(r, false, sel), t, [], t);
    acts := [FinishJob(r, false, sel)] + [];
  }

  /** The four ways in which something left over spoils a queued run. */
  lemma DisturbedQueueFails(s: State, sel: Selection) returns (acts: seq<Action>, t: State)
    requires Claimable(sel) && !Undisturbed(s, sel)
    ensures RunsTo(Next(s, Queue(sel)), acts, t) && RunnerSide(acts) && !Honoured(|s.claims|, sel, t)
  {
    var s0 := Next(s, Queue(sel));
    if r :| r in s.jobs {
      acts, t := JobSwallows(s0, r, sel);
    } else if r :| r in s.runners && s.runners[r].Claimed? {
      var s1 := Next(s0, HandOut(r));
      acts, t := JobSwallows(s1, r, sel);
      Prepend(s0, HandOut(r), s1, acts, t);
      acts := [HandOut(r)] + acts;
    } else if r :| r in s.runners && s.runners[r].Won? {
      t := Next(s0, WriteClaim(r));
      Prepend(s0, WriteClaim(r), t, [], t);
      acts := [WriteClaim(r)] + [];
    } else {
      assert Holding(s.runners) == {};
      assert s.jobs == multiset{};
      var r :| r in s.runners && s.runners[r].Seen? && Waiting(s.runners[r].row) &&
               s.runners[r].row.selection != sel;
      var user := s.runners[r].row.selection.user.GetOr(0);
      t := Next(s0, TryClaim(r, user));
      Prepend(s0, TryClaim(r, user), t, [], t);
      acts := [TryClaim(r, user)] + [];
    }
  }

  /**
   A run that is queued stays claimable until it is claimed, and is claimed as queued, along every
   later run of the runners, exactly when nothing of an earlier claim is left when it is queued.
   */
  lemma QueueHonouredIffUndisturbed(s: State, sel: Selection)
    requires Claimable(sel)
    ensures StaysHonoured(s, sel) <==> Undisturbed(s, sel)
  {
    var s0 := Next(s, Queue(sel));
    if Undisturbed(s, sel) {
      forall acts, t | RunsTo(s0, acts, t) && RunnerSide(acts)
        ensures Honoured(|s.claims|, sel, t)
      {
        QueuedRun(|s.claims|, sel, s0, acts, t);
      }
    } else {
      var acts, t := DisturbedQueueFails(s, sel);
      assert RunsTo(s0, acts, t) && RunnerSide(acts) && !Honoured(|s.claims|, sel, t);
    }
  }

  /** PENDING, but no runner that polls now would take it. */
  predicate Stranded(s: State) {
    s.row.status == PENDING && !Waiting(s.row) &&
    forall r :: r in s.runners && s.runners[r].Seen? ==> !Waiting(s.runners[r].row)
  }

  /** A stranded run stays PENDING and unclaimed until somebody other than a runner writes it. */
  lemma {:induction false} StrandedStays(s: State, acts: seq<Action>, t: State)
    requires Stranded(s) && RunsTo(s, acts, t)
    requires RunnerSide(acts) && (forall a :: a in acts ==> !a.WriteClaim? && !a.FinishJob?)
    ensures Stranded(t) && Holding(t.runners) <= Holding(s.runners)
    decreases |acts|
  {
    if acts != [] {
      assert acts[0] in acts;
      StrandedStays(Next(s, acts[0]), acts[1..], t);
    }
  }

  const QUIET: State := State(Row(RUNNING, Selection(None, None, None)), map[], multiset{}, [], 0, 0)

  /** Queued, polled and claimed: the guarded write is done. */
  lemma ClaimOnce(sel: Selection, r: RunnerId, user: UserId) returns (acts: seq<Action>, t: State)
    requires Claimable(sel) && sel.user == Some(user)
    ensures RunsTo(QUIET, acts, t)
    ensures t == State(Row(RUNNING, sel), map[r := Won(sel)], multiset{}, [sel], 1, 0)
  {
    var s1 := Next(QUIET, Queue(sel));
    var s2 := Next(s1, Poll(r));
    t := Next(s2, TryClaim(r, user));
    Prepend(s2, TryClaim(r, user), t, [], t);
    acts := [TryClaim(r, user)] + [];
    Prepend(s1, Poll(r), s2, acts, t);
    acts := [Poll(r)] + acts;
    Prepend(QUIET, Queue(sel), s1, acts, t);
    acts := [Queue(sel)] + acts;
  }

  /** The claim is written down and the job returned. */
  lemma WriteDown(s: State, sel: Selection, r: RunnerId) returns (acts: seq<Action>, t: State)
    requires s.runners == map[r := Won(sel)]
    ensures RunsTo(s, acts, t)
    ensures t == s.(row := s.row.(selection := sel.(claimedBy := Some(r))), runners := map[],
                    jobs := s.jobs + multiset{r}, handed := s.handed + 1)
  {
    var s1 := Next(s, WriteClaim(r));
    t := Next(s1, HandOut(r));
    assert t.runners == map[];
    Prepend(s1, HandOut(r), t, [], t);
    Prepend(s, WriteClaim(r), s1, [HandOut(r)] + [], t);
    acts := [WriteClaim(r)] + ([HandOut(r)] + []);
  }

  lemma {:induction false} Append(s: State, acts: seq<Action>, t: State, more: seq<Action>, u: State)
    requires RunsTo(s, acts, t) && RunsTo(t, more, u)
    ensures RunsTo(s, acts + more, u)
    decreases |acts|
  {
    if acts == [] {
      assert acts + more == more;
    } else {
      assert (acts + more)[1..] == acts[1..] + more;
      Append(Next(s, acts[0]), acts[1..], t, more, u);
    }
  }

  /** Queued again before the claim is written down: the run is stranded. */
  lemma RequeueCanStrand(sel: Selection, r: RunnerId, user: UserId) returns (acts: seq<Action>, t: State)
    requires Claimable(sel) && sel.user == Some(user)
    ensures RunsTo(QUIET, acts, t) && Stranded(t) && t.queued == 2 && t.handed == 1
  {
    var first, t1 := ClaimOnce(sel, r, user);
    var t2 := Next(t1, Queue(sel));
    var last;
    last, t := WriteDown(t2, sel, r);
    Prepend(t1, Queue(sel), t2, last, t);
    Append(QUIET, first, t1, [Queue(sel)] + last, t);
    acts := first + ([Queue(sel)] + last);
  }

  /** Queued again while the first job runs, which then ends: RUNNING, claimed, and nobody works on it. */
  lemma RequeueCanBeSwallowed(sel: Selection, r: RunnerId, user: UserId) returns (acts: seq<Action>, t: State)
    requires Claimable(sel) && sel.user == Some(user)
    ensures RunsTo(QUIET, acts, t)
    ensures t == State(Row(RUNNING, sel.(claimedBy := Some(r))), map[], multiset{}, [sel], 2, 1)
  {
    var first, t1 := ClaimOnce(sel, r, user);
    var second, t2 := WriteDown(t1, sel, r);
    var t3 := Next(t2, Queue(sel));
    var last;
    last, t := JobSwallows(t3, r, sel);
    Prepend(t2, Queue(sel), t3, last, t);
    Append(t1, second, t2, [Queue(sel)] + last, t);
    Append(QUIET, first, t1, second + ([Queue(sel)] + last), t);
    acts := first + (second + ([Queue(sel)] + last));
  }

  // ---------------------------------------------------------------------------------------
  // One undisturbed call of claimNext over the whole table
  // ---------------------------------------------------------------------------------------

  const CANDIDATES: nat := 40

  type RunId = nat

  /** The oldest PENDING runs the query returns; `order` lists the runs by creation time. */
  function Candidates(order: seq<RunId>, rows: map<RunId, Row>): (ids: seq<RunId>)
    ensures forall id :: id in ids ==> id in rows && rows[id].status == PENDING
  {
    var pending := Filter(order, (id: RunId) => id in rows && rows[id].status == PENDING);
    if |pending| > CANDIDATES then
      assert forall id :: id in pending[..CANDIDATES] ==> id in pending;
      pending[..CANDIDATES]
    else pending
  }

  predicate IsPending(rows: map<RunId, Row>, id: RunId) {
    id in rows && rows[id].status == PENDING
  }

  /** How many PENDING runs are older than the one at `i`. */
  function PendingBefore(order: seq<RunId>, rows: map<RunId, Row>, i: nat): nat
    requires i <= |order|
  {
    if i == 0 then 0 else PendingBefore(order, rows, i - 1) + (if IsPending(rows, order[i - 1]) then 1 else 0)
  }

  /** A PENDING run for local runners that nobody has claimed, bound to no user or to this one. */
  predicate Takeable(rows: map<RunId, Row>, id: RunId, user: UserId) {
    && IsPending(rows, id)
    && rows[id].selection.target == Some(LOCAL) && rows[id].selection.claimedBy == None
    && (rows[id].selection.user == None || rows[id].selection.user == Some(user))
  }

  /** It is among the forty oldest PENDING runs. */
  predicate InReach(order: seq<RunId>, rows: map<RunId, Row>, i: nat)
    requires i < |order|
  {
    IsPending(rows, order[i]) && PendingBefore(order, rows, i) < 40
  }

  /** Exactly `k` PENDING runs are older than this one. */
  predicate IsKth(order: seq<RunId>, rows: map<RunId, Row>, k: nat, i: nat) {
    i < |order| && IsPending(rows, order[i]) && PendingBefore(order, rows, i) == k
  }

  function PendingIn(order: seq<RunId>, rows: map<RunId, Row>): seq<RunId> {
    Filter(order, (id: RunId) => id in rows && rows[id].status == PENDING)
  }

  lemma {:induction false} PendingAsCounted(order: seq<RunId>, rows: map<RunId, Row>, n: nat)
    requires n <= |order|
    ensures |PendingIn(order[..n], rows)| == PendingBefore(order, rows, n)
    ensures forall i :: 0 <= i < n && IsPending(rows, order[i]) ==>
              PendingBefore(order, rows, i) < PendingBefore(order, rows, n) &&
              PendingIn(order[..n], rows)[PendingBefore(order, rows, i)] == order[i]
  {
    if n > 0 {
      var keep := (id: RunId) => id in rows && rows[id].status == PENDING;
      assert order[..n] == order[..n - 1] + [order[n - 1]];
      FilterAppend(order[..n - 1], [order[n - 1]], keep);
      FilterOne(order[n - 1], keep);
      PendingAsCounted(order, rows, n - 1);
    }
  }

  lemma {:induction false} KthPending(order: seq<RunId>, rows: map<RunId, Row>, n: nat, k: nat) returns (i: nat)
    requires n <= |order| && k < PendingBefore(order, rows, n)
    ensures i < n && IsKth(order, rows, k, i)
  {
    if k < PendingBefore(order, rows, n - 1) {
      i := KthPending(order, rows, n - 1, k);
    } else {
      i := n - 1;
    }
  }

  /** The candidates are the runs in reach, oldest first. */
  lemma CandidatesInReach(order: seq<RunId>, rows: map<RunId, Row>)
    ensures |Candidates(order, rows)| <= 40 && |Candidates(order, rows)| <= PendingBefore(order, rows, |order|)
    ensures forall i :: 0 <= i < |order| && InReach(order, rows, i) ==>
              PendingBefore(order, rows, i) < |Candidates(order, rows)| &&
              Candidates(order, rows)[PendingBefore(order, rows, i)] == order[i]
  {
    PendingAsCounted(order, rows, |order|);
    assert order[..|order|] == order;
    assert |PendingIn(order, rows)| == PendingBefore(order, rows, |order|);
  }

  lemma {:induction false} PendingGrows(order: seq<RunId>, rows: map<RunId, Row>, i: nat, j: nat)
    requires i <= j <= |order|
    ensures PendingBefore(order, rows, i) <= PendingBefore(order, rows, j)
    decreases j
  {
    if i < j {
      PendingGrows(order, rows, i, j - 1);
    }
  }

  /** The run taken is the oldest in reach that this user's runner may take. */
  predicate OldestTakeable(order: seq<RunId>, rows: map<RunId, Row>, user: UserId, i: nat)
    requires i < |order|
  {
    InReach(order, rows, i) && Takeable(rows, order[i], user) &&
    forall j :: 0 <= j < i ==> !Takeable(rows, order[j], user)
  }

  lemma OlderComesFirst(order: seq<RunId>, rows: map<RunId, Row>, i: nat, j: nat)
    requires j < i < |order| && InReach(order, rows, i)
    ensures IsPending(rows, order[j]) ==> InReach(order, rows, j)
    ensures IsPending(rows, order[j]) ==> PendingBefore(order, rows, j) < PendingBefore(order, rows, i)
  {
    PendingGrows(order, rows, j + 1, i);
  }

  lemma TakenIsOldest(order: seq<RunId>, rows: map<RunId, Row>, user: UserId, k: nat)
    requires k < |Candidates(order, rows)|
    requires MayClaim(rows[Candidates(order, rows)[k]], user)
    requires forall j :: 0 <= j < k ==> !MayClaim(rows[Candidates(order, rows)[j]], user)
    ensures exists i :: 0 <= i < |order| && order[i] == Candidates(order, rows)[k] &&
                        OldestTakeable(order, rows, user, i)
  {
    CandidatesInReach(order, rows);
    var i := KthPending(order, rows, |order|, k);
    assert InReach(order, rows, i);
    forall j | 0 <= j < i
      ensures !Takeable(rows, order[j], user)
    {
      OlderComesFirst(order, rows, i, j);
    }
    assert OldestTakeable(order, rows, user, i);
  }

  lemma NoneInReach(order: seq<RunId>, rows: map<RunId, Row>, user: UserId)
    requires forall id :: id in Candidates(order, rows) ==> !MayClaim(rows[id], user)
    ensures forall i :: 0 <= i < |order| && InReach(order, rows, i) ==> !Takeable(rows, order[i], user)
  {
    CandidatesInReach(order, rows);
    forall i | 0 <= i < |order| && InReach(order, rows, i)
      ensures !Takeable(rows, order[i], user)
    {
      assert order[i] in Candidates(order, rows);
    }
  }

  class RunTable {
    const order: seq<RunId>
    var rows: map<RunId, Row>

    constructor (order: seq<RunId>, rows: map<RunId, Row>)
      ensures this.order == order && this.rows == rows
    {
      this.order, this.rows := order, rows;
    }

    /** `updateMany` guarded by the status: the number of rows it matched. */
    method UpdateWherePending(id: RunId, status: Status) returns (count: nat)
      requires id in rows
      modifies this
      ensures count == if old(rows)[id].status == PENDING then 1 else 0
      ensures rows == if count == 1 then old(rows)[id := old(rows)[id].(status := status)] else old(rows)
    {
      if rows[id].status == PENDING {
        rows := rows[id := rows[id].(status := status)];
        return 1;
      }
      return 0;
    }

    /** Claims the oldest candidate this runner may take, and touches no other run. */
    method ClaimNext(runner: RunnerId, user: UserId) returns (job: Option<RunId>)
      modifies this
      ensures job.None? ==> rows == old(rows)
      ensures job.None? ==>
                forall i :: 0 <= i < |order| && InReach(order, old(rows), i) ==> !Takeable(old(rows), order[i], user)
      ensures job.Some? ==>
                job.value in old(rows) &&
                exists i :: 0 <= i < |order| && order[i] == job.value && OldestTakeable(order, old(rows), user, i)
      ensures job.Some? && job.value in old(rows) ==>
                rows == old(rows)[job.value :=
                          Row(RUNNING, old(rows)[job.value].selection.(claimedBy := Some(runner)))]
    {
      var candidates := Candidates(order, rows);
      for k := 0 to |candidates|
        invariant rows == old(rows)
        invariant forall j :: 0 <= j < k ==> !MayClaim(rows[candidates[j]], user)
      {
        var id := candidates[k];
        assert id in candidates;
        var seen := rows[id];
        if !MayClaim(seen, user) {
          continue;
        }
        var count := UpdateWherePending(id, RUNNING);
        if count != 1 {
          continue;
        }
        TakenIsOldest(order, old(rows), user, k);
        rows := rows[id := rows[id].(selection := seen.selection.(claimedBy := Some(runner)))];
        return Some(id);
      }
      NoneInReach(order, rows, user);
      job := None;
    }

    /**
     `completeJob`, by a runner whose job it is. `seen` is the row it read first: a finished run is
     left as it is, and the guarded write at the end leaves one alone that was finished meanwhile.
     */
    method CompleteJob(runner: RunnerId, id: RunId, seen: Row, cancelled: bool) returns (status: Status)
      requires id in rows
      modifies this
      ensures var was := old(rows)[id].status;
              if seen.status == COMPLETED || seen.status == CANCELLED || was == COMPLETED || was == CANCELLED
              then rows == old(rows)
              else rows == old(rows)[id := Row(if cancelled then CANCELLED else RUNNING,
                                               seen.selection.(claimedBy := Some(runner)))]
      ensures status == if seen.status == COMPLETED || seen.status == CANCELLED then seen.status else rows[id].status
      ensures !Terminal(seen.status) ==>
                forall s: State :: runner in s.jobs && s.row == old(rows)[id] ==>
                  Next(s, FinishJob(runner, cancelled, seen.selection)).row == rows[id]
    {
      if Terminal(seen.status) {
        return seen.status;
      }
      var cleaned := seen.selection.(claimedBy := Some(runner));
      if !Terminal(rows[id].status) {
        rows := rows[id := Row(if cancelled then CANCELLED else RUNNING, cleaned)];
      }
      status := rows[id].status;
    }
  }
}
