/**
 The pause a worker takes at a human gate: `waitForContinueSignal` racing a one-second poll
 of two durable Redis keys, a pub/sub channel and a timeout, against an API that sets a key
 and then publishes a message.

 A command takes effect on the server when it is issued; its reply, and a published message,
 arrive later. `Step` is one such event, `Reaches` any interleaving of them.
 */
module ContinueWait {
  import opened Common

  /** The two getdel replies of a poll; they come back in the order they were issued. */
  datatype Reply = CancelReply(hit: bool) | ContinueReply(hit: bool)

  datatype Message = ContinueMessage | CancelMessage

  datatype Outcome = Released | Cancelled | TimedOut | SubscribeFailed

  /**
   One call of the wait. `Listening` is the promise with its closure: `settled` is the
   source's flag (with the reason), and late replies and messages keep arriving after it.
   */
  datatype Wait =
    | Idle
    | EntryCancel(hit: bool)
    | EntryContinue(hit: bool)
    | Listening(settled: Option<Outcome>, subscribed: bool, midPoll: bool,
                replies: seq<Reply>, inbox: seq<Message>)
    | Done(outcome: Outcome)

  datatype Net = Net(continueFlag: bool, cancelFlag: bool, wait: Wait)

  datatype Event =
    | Enter
    | EntryReply
    | Subscribe
    | PollCancelKey
    | PollContinueKey
    | ReplyArrives
    | MessageArrives
    | TimerFires
    | SubscribeFails
    | Return
    | SetContinue
    | SendContinue
    | PublishContinue
    | SetCancel
    | SendCancel
    | PublishCancel
    | ContinueExpires
    | CancelExpires

  predicate Enabled(n: Net, e: Event) {
    var w := n.wait;
    match e
    case Enter => w.Idle?
    case EntryReply => w.EntryCancel? || w.EntryContinue?
    case Subscribe => w.Listening? && w.settled.None? && !w.subscribed
    case PollCancelKey => w.Listening? && w.settled.None? && !w.midPoll
    case PollContinueKey => w.Listening? && w.midPoll
    case ReplyArrives => w.Listening? && !w.midPoll && w.replies != []
    case MessageArrives => w.Listening? && !w.midPoll && w.inbox != []
    case TimerFires => w.Listening? && !w.midPoll
    case SubscribeFails => w.Listening? && !w.midPoll
    case Return => OutcomeOf(w).Some?
    case ContinueExpires => n.continueFlag
    case CancelExpires => n.cancelFlag
    case _ => true
  }

  function OutcomeOf(w: Wait): Option<Outcome> {
    match w
    case Done(o) => Some(o)
    case Listening(s, _, _, _, _) => s
    case _ => None
  }

  /** `finishOk`: nothing once settled; otherwise drop the durable flag and unsubscribe. */
  function SettleOk(n: Net): Net
    requires n.wait.Listening?
  {
    if n.wait.settled.Some? then n
    else n.(continueFlag := false, wait := n.wait.(settled := Some(Released), subscribed := false))
  }

  /** `finishCancel`: the same for the cancel key. */
  function SettleCancel(n: Net): Net
    requires n.wait.Listening?
  {
    if n.wait.settled.Some? then n
    else n.(cancelFlag := false, wait := n.wait.(settled := Some(Cancelled), subscribed := false))
  }

  /** The timer and the subscribe error settle without touching either key. */
  function SettleWith(n: Net, o: Outcome): Net
    requires n.wait.Listening?
  {
    if n.wait.settled.Some? then n
    else n.(wait := n.wait.(settled := Some(o), subscribed := false))
  }

  function Send(n: Net, m: Message): Net {
    if n.wait.Listening? && n.wait.subscribed
    then n.(wait := n.wait.(inbox := n.wait.inbox + [m]))
    else n
  }

  function OnReply(n: Net): Net
    requires n.wait.Listening? && n.wait.replies != []
  {
    var r := n.wait.replies[0];
    var n1 := n.(wait := n.wait.(replies := n.wait.replies[1..]));
    if !r.hit then n1
    else if r.CancelReply? then SettleCancel(n1) else SettleOk(n1)
  }

  function OnMessage(n: Net): Net
    requires n.wait.Listening? && n.wait.inbox != []
  {
    var m := n.wait.inbox[0];
    var n1 := n.(wait := n.wait.(inbox := n.wait.inbox[1..]));
    if m.CancelMessage? then SettleCancel(n1) else SettleOk(n1)
  }

  function OnEntryReply(n: Net): Net
    requires n.wait.EntryCancel? || n.wait.EntryContinue?
  {
    match n.wait
    case EntryCancel(true) => n.(wait := Done(Cancelled))
    case EntryCancel(false) => n.(continueFlag := false, wait := EntryContinue(n.continueFlag))
    case EntryContinue(true) => n.(wait := Done(Released))
    case EntryContinue(false) => n.(wait := Listening(None, false, false, [], []))
  }

  function Step(n: Net, e: Event): Net
    requires Enabled(n, e)
  {
    match e
    case Enter => n.(cancelFlag := false, wait := EntryCancel(n.cancelFlag))
    case EntryReply => OnEntryReply(n)
    case Subscribe => n.(wait := n.wait.(subscribed := true))
    case PollCancelKey =>
      n.(cancelFlag := false,
         wait := n.wait.(midPoll := true, replies := n.wait.replies + [CancelReply(n.cancelFlag)]))
    case PollContinueKey =>
      n.(continueFlag := false,
         wait := n.wait.(midPoll := false, replies := n.wait.replies + [ContinueReply(n.continueFlag)]))
    case ReplyArrives => OnReply(n)
    case MessageArrives => OnMessage(n)
    case TimerFires => SettleWith(n, TimedOut)
    case SubscribeFails => SettleWith(n, SubscribeFailed)
    case Return => n.(wait := Idle)
    case SetContinue => n.(continueFlag := true)
    case SendContinue => Send(n, ContinueMessage)
    case PublishContinue => Send(n.(continueFlag := true), ContinueMessage)
    case SetCancel => n.(cancelFlag := true)
    case SendCancel => Send(n, CancelMessage)
    case PublishCancel => Send(n.(cancelFlag := true), CancelMessage)
    case ContinueExpires => n.(continueFlag := false)
    case CancelExpires => n.(cancelFlag := false)
  }

  /** `es` is one interleaving that leads from `n` to `m`. */
  ghost predicate Reaches(n: Net, es: seq<Event>, m: Net)
    decreases |es|
  {
    if es == [] then n == m
    else Enabled(n, es[0]) && Reaches(Step(n, es[0]), es[1..], m)
  }

  // ---------------------------------------------------------------------------------------
  // Settling once
  // ---------------------------------------------------------------------------------------

  /** Whatever still arrives, a settled wait keeps its outcome until it returns. */
  lemma {:induction false} SettlesAtMostOnce(n: Net, es: seq<Event>, m: Net)
    requires OutcomeOf(n.wait).Some? && Reaches(n, es, m)
    requires Return !in es
    ensures OutcomeOf(m.wait) == OutcomeOf(n.wait)
    decreases |es|
  {
    if es != [] {
      var n1 := Step(n, es[0]);
      assert es[0] != Return;
      assert OutcomeOf(n1.wait) == OutcomeOf(n.wait);
      SettlesAtMostOnce(n1, es[1..], m);
    }
  }

  // ---------------------------------------------------------------------------------------
  // Cancel beats continue
  // ---------------------------------------------------------------------------------------

  /** With the cancel key set on entry the wait ends cancelled, whatever happens, and leaves a continue flag unspent. */
  lemma {:induction false} CancelWinsAtEntry(n: Net, es: seq<Event>, m: Net)
    requires n.wait == EntryCancel(true) || n.wait == Done(Cancelled)
    requires Reaches(n, es, m) && Return !in es
    ensures m.wait == EntryCancel(true) || m.wait == Done(Cancelled)
    ensures n.continueFlag && ContinueExpires !in es ==> m.continueFlag
    decreases |es|
  {
    if es != [] {
      assert es[0] in es;
      CancelWinsAtEntry(Step(n, es[0]), es[1..], m);
    }
  }

  /** The first reply on its way that is a hit. */
  function FirstHit(replies: seq<Reply>): Option<Reply> {
    if replies == [] then None
    else if replies[0].hit then Some(replies[0])
    else FirstHit(replies[1..])
  }

  lemma {:induction false} FirstHitSnoc(replies: seq<Reply>, r: Reply)
    ensures FirstHit(replies + [r]) ==
            if FirstHit(replies).Some? then FirstHit(replies) else if r.hit then Some(r) else None
  {
    if replies == [] {
      assert ([] + [r])[1..] == [];
    } else {
      assert (replies + [r])[1..] == replies[1..] + [r];
      FirstHitSnoc(replies[1..], r);
    }
  }

  predicate Hears(w: Wait, m: Message) {
    w.Listening? && w.inbox != [] && w.inbox[0] == m
  }

  /** The wait does not return meanwhile, and hears no continue sent from now on unless `later` allows it. */
  predicate Permitted(e: Event, later: bool) {
    e != Return && (later || (e != SendContinue && e != PublishContinue))
  }

  ghost predicate AllPermitted(es: seq<Event>, later: bool) {
    forall e :: e in es ==> Permitted(e, later)
  }

  /** A cancel is what the wait will learn first: by reply, and by message if a continue may still be sent. */
  predicate CancelAhead(w: Wait, later: bool) {
    && w.Listening? && w.settled.None? && FirstHit(w.replies) == Some(CancelReply(true))
    && (if later then Hears(w, CancelMessage) else !Hears(w, ContinueMessage))
  }

  predicate EndedUnreleased(w: Wait) {
    OutcomeOf(w).Some? && OutcomeOf(w) != Some(Released)
  }

  lemma CancelAheadStep(n: Net, e: Event, later: bool)
    requires CancelAhead(n.wait, later) && Enabled(n, e) && Permitted(e, later)
    ensures CancelAhead(Step(n, e).wait, later) || EndedUnreleased(Step(n, e).wait)
  {
    if e == PollCancelKey {
      FirstHitSnoc(n.wait.replies, CancelReply(n.cancelFlag));
    } else if e == PollContinueKey {
      FirstHitSnoc(n.wait.replies, ContinueReply(n.continueFlag));
    }
  }

  lemma {:induction false} CancelWinsFrom(n: Net, es: seq<Event>, m: Net, later: bool)
    requires CancelAhead(n.wait, later) || EndedUnreleased(n.wait)
    requires Reaches(n, es, m) && AllPermitted(es, later)
    ensures CancelAhead(m.wait, later) || EndedUnreleased(m.wait)
    decreases |es|
  {
    if es != [] {
      assert es[0] in es;
      if CancelAhead(n.wait, later) {
        CancelAheadStep(n, es[0], later);
      }
      CancelWinsFrom(Step(n, es[0]), es[1..], m, later);
    }
  }

  /** Some permitted course of events releases the wait. */
  ghost predicate CanRelease(n: Net, later: bool) {
    exists es, m :: Reaches(n, es, m) && AllPermitted(es, later) && OutcomeOf(m.wait) == Some(Released)
  }

  lemma ReleasedCanRelease(n: Net, later: bool)
    requires OutcomeOf(n.wait) == Some(Released)
    ensures CanRelease(n, later)
  {
    assert Reaches(n, [], n) && AllPermitted([], later);
  }

  lemma CanReleaseBefore(n: Net, e: Event, later: bool)
    requires Enabled(n, e) && Permitted(e, later) && CanRelease(Step(n, e), later)
    ensures CanRelease(n, later)
  {
    var es, m :| Reaches(Step(n, e), es, m) && AllPermitted(es, later) && OutcomeOf(m.wait) == Some(Released);
    Push(n, e, Step(n, e), es, m);
    assert Reaches(n, [e] + es, m) && AllPermitted([e] + es, later);
  }

  lemma HeardContinueWins(n: Net, later: bool)
    requires Hears(n.wait, ContinueMessage) && n.wait.settled.None?
    ensures CanRelease(n, later)
    decreases n.wait.midPoll
  {
    if n.wait.midPoll {
      HeardContinueWins(Step(n, PollContinueKey), later);
      CanReleaseBefore(n, PollContinueKey, later);
    } else {
      ReleasedCanRelease(Step(n, MessageArrives), later);
      CanReleaseBefore(n, MessageArrives, later);
    }
  }

  lemma ContinueReplyWins(n: Net, later: bool)
    requires n.wait.Listening? && n.wait.settled.None? && FirstHit(n.wait.replies) == Some(ContinueReply(true))
    ensures CanRelease(n, later)
    decreases n.wait.midPoll, |n.wait.replies|
  {
    if n.wait.midPoll {
      FirstHitSnoc(n.wait.replies, ContinueReply(n.continueFlag));
      ContinueReplyWins(Step(n, PollContinueKey), later);
      CanReleaseBefore(n, PollContinueKey, later);
    } else {
      var n1 := Step(n, ReplyArrives);
      if n.wait.replies[0].hit {
        ReleasedCanRelease(n1, later);
      } else {
        ContinueReplyWins(n1, later);
      }
      CanReleaseBefore(n, ReplyArrives, later);
    }
  }

  lemma LaterContinueWins(n: Net)
    requires n.wait.Listening? && n.wait.settled.None? && n.wait.inbox == []
    ensures CanRelease(n, true)
    decreases !n.wait.subscribed
  {
    if !n.wait.subscribed {
      LaterContinueWins(Step(n, Subscribe));
      CanReleaseBefore(n, Subscribe, true);
    } else {
      HeardContinueWins(Step(n, PublishContinue), true);
      CanReleaseBefore(n, PublishContinue, true);
    }
  }

  /**
   A poll takes the cancel key. Cancel does not always beat continue then: the continue can still
   win exactly when a poll before it has the continue flag on its way back, or a continue message
   is the first to be heard, or none is heard yet and one may still be sent. Otherwise the wait is
   not released, in whatever order replies, messages, polls and the timer come.
   */
  lemma CancelWinsAtPoll(n: Net, later: bool)
    requires Enabled(n, PollCancelKey) && n.cancelFlag
    ensures CanRelease(Step(n, PollCancelKey), later) <==>
            FirstHit(n.wait.replies) == Some(ContinueReply(true)) || Hears(n.wait, ContinueMessage) ||
            (later && n.wait.inbox == [])
  {
    var n1 := Step(n, PollCancelKey);
    FirstHitSnoc(n.wait.replies, CancelReply(true));
    FirstHitIsThere(n.wait.replies);
    if FirstHit(n.wait.replies) == Some(ContinueReply(true)) {
      ContinueReplyWins(n1, later);
    } else if Hears(n.wait, ContinueMessage) {
      HeardContinueWins(n1, later);
    } else if later && n.wait.inbox == [] {
      LaterContinueWins(n1);
    } else {
      assert CancelAhead(n1.wait, later);
      if es, m :| Reaches(n1, es, m) && AllPermitted(es, later) && OutcomeOf(m.wait) == Some(Released) {
        CancelWinsFrom(n1, es, m, later);
      }
    }
  }

  lemma {:induction false} FirstHitIsThere(replies: seq<Reply>)
    ensures FirstHit(replies).Some? ==> FirstHit(replies).value in replies && FirstHit(replies).value.hit
  {
    if replies != [] {
      FirstHitIsThere(replies[1..]);
    }
  }

  // ---------------------------------------------------------------------------------------
  // A published cancel is not lost while the wait is unsettled
  // ---------------------------------------------------------------------------------------

  /** Something will still cancel this wait or the next one. */
  predicate CancelTrace(n: Net) {
    n.cancelFlag || n.wait == EntryCancel(true) ||
    (n.wait.Listening? && n.wait.settled.None? &&
     (CancelReply(true) in n.wait.replies || CancelMessage in n.wait.inbox))
  }

  /**
   The last trace of a cancel goes only when it cancels the wait, when the key expires, or when the
   wait ends otherwise with the key already taken by a poll.
   */
  lemma CancelTraceStep(n: Net, e: Event)
    requires Enabled(n, e) && CancelTrace(n)
    ensures var m := Step(n, e);
            || CancelTrace(m)
            || (OutcomeOf(n.wait).None? && OutcomeOf(m.wait) == Some(Cancelled))
            || (e == CancelExpires && n.cancelFlag)
            || (OutcomeOf(n.wait).None? && OutcomeOf(m.wait).Some? && n.wait.Listening? && !n.cancelFlag)
  {
    match e {
      case PollContinueKey =>
        assert forall r :: r in n.wait.replies ==> r in Step(n, e).wait.replies;
      case PollCancelKey =>
        assert Step(n, e).wait.replies[|n.wait.replies|] == CancelReply(n.cancelFlag);
        assert forall r :: r in n.wait.replies ==> r in Step(n, e).wait.replies;
      case ReplyArrives =>
        assert n.wait.replies == [n.wait.replies[0]] + n.wait.replies[1..];
      case MessageArrives =>
        assert n.wait.inbox == [n.wait.inbox[0]] + n.wait.inbox[1..];
      case _ =>
    }
  }

  // ---------------------------------------------------------------------------------------
  // A published continue is never lost, and is never spent twice
  // ---------------------------------------------------------------------------------------

  /** Something in the wait may still release it; a continue behind a cancel message cannot. */
  predicate EvidenceInFlight(w: Wait) {
    w.Listening? && w.settled.None? &&
    (ContinueReply(true) in w.replies || (w.inbox != [] && w.inbox[0] == ContinueMessage))
  }

  predicate EntryHit(w: Wait) {
    w == EntryContinue(true)
  }

  function Tokens(n: Net): nat {
    (if EntryHit(n.wait) then 1 else 0) +
    (if n.continueFlag || EvidenceInFlight(n.wait) then 1 else 0)
  }

  function Releases(n: Net, e: Event): nat
    requires Enabled(n, e)
  {
    if OutcomeOf(n.wait).None? && OutcomeOf(Step(n, e).wait) == Some(Released) then 1 else 0
  }

  /** How often a wait was released along an interleaving, over any number of waits. */
  ghost function ReleasesIn(n: Net, es: seq<Event>): nat
    decreases |es|
  {
    if es == [] || !Enabled(n, es[0]) then 0
    else Releases(n, es[0]) + ReleasesIn(Step(n, es[0]), es[1..])
  }

  function PublishOf(e: Event): nat {
    if e == PublishContinue || e == SetContinue then 1 else 0
  }

  function PublishesIn(es: seq<Event>): nat {
    if es == [] then 0
    else PublishOf(es[0]) + PublishesIn(es[1..])
  }

  /**
   A message sent apart from its flag is late when the wait that hears it first has neither flag
   nor trace of a publish left: the flag it belongs to has been spent.
   */
  predicate LateSend(n: Net) {
    && n.wait.Listening? && n.wait.settled.None? && n.wait.subscribed && n.wait.inbox == []
    && Tokens(n) == 0
  }

  function LateSendOf(n: Net, e: Event): nat {
    if e == SendContinue && LateSend(n) then 1 else 0
  }

  ghost function LateSendsIn(n: Net, es: seq<Event>): nat
    decreases |es|
  {
    if es == [] || !Enabled(n, es[0]) then 0
    else LateSendOf(n, es[0]) + LateSendsIn(Step(n, es[0]), es[1..])
  }

  lemma TokensStep(n: Net, e: Event)
    requires Enabled(n, e)
    ensures Releases(n, e) + Tokens(Step(n, e)) <= Tokens(n) + PublishOf(e) + LateSendOf(n, e)
  {
    var m := Step(n, e);
    match e {
      case ReplyArrives =>
        assert n.wait.replies == [n.wait.replies[0]] + n.wait.replies[1..];
      case MessageArrives =>
        assert n.wait.inbox == [n.wait.inbox[0]] + n.wait.inbox[1..];
      case _ =>
    }
  }

  /**
   Whether a publish is one step or two: no number of waits is released more often than continues
   were published and messages came late.
   */
  lemma {:induction false} ReleasesBounded(n: Net, es: seq<Event>, m: Net)
    requires Reaches(n, es, m)
    ensures ReleasesIn(n, es) + Tokens(m) <= Tokens(n) + PublishesIn(es) + LateSendsIn(n, es)
    decreases |es|
  {
    if es != [] {
      TokensStep(n, es[0]);
      ReleasesBounded(Step(n, es[0]), es[1..], m);
    }
  }

  /** Every message of the run is sent in time. */
  ghost predicate SendsInTime(n: Net, es: seq<Event>)
    decreases |es|
  {
    es == [] || !Enabled(n, es[0]) ||
    (LateSendOf(n, es[0]) == 0 && SendsInTime(Step(n, es[0]), es[1..]))
  }

  /** So releases never exceed publishes as long as no message comes late; with atomic publishes none does. */
  lemma {:induction false} ReleasesNeverExceedPublishes(n: Net, es: seq<Event>, m: Net)
    requires Reaches(n, es, m) && SendsInTime(n, es)
    ensures ReleasesIn(n, es) + Tokens(m) <= Tokens(n) + PublishesIn(es)
    decreases |es|
  {
    if es != [] {
      TokensStep(n, es[0]);
      ReleasesNeverExceedPublishes(Step(n, es[0]), es[1..], m);
    }
  }

  lemma {:induction false} AtomicSendsInTime(n: Net, es: seq<Event>)
    requires SendContinue !in es
    ensures SendsInTime(n, es)
    decreases |es|
  {
    if es != [] && Enabled(n, es[0]) {
      assert es[0] in es;
      AtomicSendsInTime(Step(n, es[0]), es[1..]);
    }
  }

  /** After the message is sent now, some run without another publish or message releases more than was paid for. */
  ghost predicate SendCanOverRelease(n: Net) {
    exists es, m :: Reaches(Step(n, SendContinue), es, m) && PublishesIn(es) == 0 && SendContinue !in es &&
                    ReleasesIn(Step(n, SendContinue), es) > Tokens(n)
  }

  /** The second half of a publish can release a wait nothing paid for exactly when it comes late. */
  lemma SendOverReleasesIffLate(n: Net)
    ensures SendCanOverRelease(n) <==> LateSend(n)
  {
    var n1 := Step(n, SendContinue);
    if LateSend(n) {
      var es, m := HeardMessageReleases(n1);
      assert Reaches(n1, es, m) && PublishesIn(es) == 0 && SendContinue !in es && ReleasesIn(n1, es) > Tokens(n);
    } else if es, m :| Reaches(n1, es, m) && PublishesIn(es) == 0 && SendContinue !in es &&
                       ReleasesIn(n1, es) > Tokens(n) {
      AtomicSendsInTime(n1, es);
      ReleasesNeverExceedPublishes(n1, es, m);
      TokensStep(n, SendContinue);
      assert false;
    }
  }

  /** A continue message at the head of the inbox releases the wait, once a poll under way is over. */
  lemma HeardMessageReleases(n: Net) returns (es: seq<Event>, m: Net)
    requires n.wait.Listening? && n.wait.settled.None? && n.wait.inbox != [] && n.wait.inbox[0] == ContinueMessage
    ensures Reaches(n, es, m) && PublishesIn(es) == 0 && SendContinue !in es && ReleasesIn(n, es) == 1
    ensures OutcomeOf(m.wait) == Some(Released)
    decreases n.wait.midPoll
  {
    if n.wait.midPoll {
      var n1 := Step(n, PollContinueKey);
      es, m := HeardMessageReleases(n1);
      Push(n, PollContinueKey, n1, es, m);
      es := [PollContinueKey] + es;
    } else {
      m := Step(n, MessageArrives);
      Push(n, MessageArrives, m, [], m);
      es := [MessageArrives] + [];
    }
  }

  /** Puts one event in front of a run. */
  lemma Push(n: Net, e: Event, n1: Net, es: seq<Event>, m: Net)
    requires Enabled(n, e) && n1 == Step(n, e) && Reaches(n1, es, m)
    ensures Reaches(n, [e] + es, m)
    ensures ReleasesIn(n, [e] + es) == Releases(n, e) + ReleasesIn(n1, es)
    ensures PublishesIn([e] + es) == PublishOf(e) + PublishesIn(es)
  {
    assert ([e] + es)[1..] == es;
  }

  /** A wait that starts after the flag was spent, released by a message on its own. */
  lemma LateMessageReleases() returns (es: seq<Event>, m: Net)
    ensures Reaches(Net(false, false, Idle), es, m)
    ensures PublishesIn(es) == 0 && ReleasesIn(Net(false, false, Idle), es) == 1
  {
    m := Net(false, false, Listening(Some(Released), false, false, [], []));
    var heard := Net(false, false, Listening(None, true, false, [], [ContinueMessage]));
    var open := Net(false, false, Listening(None, true, false, [], []));
    var deaf := Net(false, false, Listening(None, false, false, [], []));
    assert heard.wait.inbox[1..] == [];
    es := [];
    Push(heard, MessageArrives, m, es, m);
    es := [MessageArrives] + es;
    Push(open, SendContinue, heard, es, m);
    es := [SendContinue] + es;
    Push(deaf, Subscribe, open, es, m);
    es := [Subscribe] + es;
    Push(Net(false, false, EntryContinue(false)), EntryReply, deaf, es, m);
    es := [EntryReply] + es;
    Push(Net(false, false, EntryCancel(false)), EntryReply, Net(false, false, EntryContinue(false)), es, m);
    es := [EntryReply] + es;
    Push(Net(false, false, Idle), Enter, Net(false, false, EntryCancel(false)), es, m);
    es := [Enter] + es;
  }

  /**
   Atomicity is needed: with the two halves of one publish apart, the flag releases one wait
   and the late message releases the next.
   */
  lemma SplitPublishReleasesTwice() returns (es: seq<Event>, m: Net)
    ensures Reaches(Net(false, false, Idle), es, m)
    ensures PublishesIn(es) == 1 && ReleasesIn(Net(false, false, Idle), es) == 2
  {
    var idle := Net(false, false, Idle);
    es, m := LateMessageReleases();
    Push(Net(false, false, Done(Released)), Return, idle, es, m);
    es := [Return] + es;
    Push(Net(false, false, EntryContinue(true)), EntryReply, Net(false, false, Done(Released)), es, m);
    es := [EntryReply] + es;
    Push(Net(true, false, EntryCancel(false)), EntryReply, Net(false, false, EntryContinue(true)), es, m);
    es := [EntryReply] + es;
    Push(Net(true, false, Idle), Enter, Net(true, false, EntryCancel(false)), es, m);
    es := [Enter] + es;
    Push(idle, SetContinue, Net(true, false, Idle), es, m);
    es := [SetContinue] + es;
  }

  // ---------------------------------------------------------------------------------------
  // Time: the flag outlives the wait
  // ---------------------------------------------------------------------------------------

  const CONTINUE_TTL_MS: nat := 60 * 60 * 1000
  const CANCEL_TTL_MS: nat := 60 * 60 * 1000
  const WAIT_TIMEOUT_MS: nat := 30 * 60 * 1000

  /** `publishedAt` and `cancelledAt` are when the keys were last set, `listenSince` when the timer was started. */
  datatype Timed = Timed(net: Net, now: nat, publishedAt: nat, cancelledAt: nat, listenSince: nat)

  datatype TimedEvent = Tick(ms: nat) | Do(event: Event)

  /** The key expires no earlier than its TTL and the timer fires no earlier than its delay. */
  predicate TimedEnabled(t: Timed, te: TimedEvent) {
    match te
    case Tick(_) => true
    case Do(e) =>
      && Enabled(t.net, e)
      && (e == ContinueExpires ==> t.now >= t.publishedAt + CONTINUE_TTL_MS)
      && (e == CancelExpires ==> t.now >= t.cancelledAt + CANCEL_TTL_MS)
      && (e == TimerFires ==> t.now >= t.listenSince + WAIT_TIMEOUT_MS)
  }

  function TimedStep(t: Timed, te: TimedEvent): Timed
    requires TimedEnabled(t, te)
  {
    match te
    case Tick(ms) => t.(now := t.now + ms)
    case Do(e) =>
      var net := Step(t.net, e);
      Timed(net, t.now,
            if e == SetContinue || e == PublishContinue then t.now else t.publishedAt,
            if e == SetCancel || e == PublishCancel then t.now else t.cancelledAt,
            if net.wait.Listening? && !t.net.wait.Listening? then t.now else t.listenSince)
  }

  ghost predicate TimedReaches(t: Timed, tes: seq<TimedEvent>, u: Timed)
    decreases |tes|
  {
    if tes == [] then t == u
    else TimedEnabled(t, tes[0]) && TimedReaches(TimedStep(t, tes[0]), tes[1..], u)
  }

  /** The only ways to use up the last trace of a publish are to settle the wait or to expire. */
  lemma TokenConserved(n: Net, e: Event)
    requires Enabled(n, e) && Tokens(n) > 0 && OutcomeOf(n.wait).None?
    requires e != ContinueExpires
    ensures Tokens(Step(n, e)) > 0 || OutcomeOf(Step(n, e).wait).Some?
  {
    match e {
      case PollContinueKey =>
        assert Step(n, e).wait.replies[|n.wait.replies|] == ContinueReply(n.continueFlag);
        assert forall r :: r in n.wait.replies ==> r in Step(n, e).wait.replies;
      case PollCancelKey =>
        assert forall r :: r in n.wait.replies ==> r in Step(n, e).wait.replies;
      case ReplyArrives =>
        assert n.wait.replies == [n.wait.replies[0]] + n.wait.replies[1..];
      case MessageArrives =>
        assert n.wait.inbox == [n.wait.inbox[0]] + n.wait.inbox[1..];
      case _ =>
    }
  }

  lemma {:induction false} TokenKept(t: Timed, tes: seq<TimedEvent>, u: Timed)
    requires TimedReaches(t, tes, u) && Do(Return) !in tes
    requires OutcomeOf(u.net.wait).None?
    requires Tokens(t.net) > 0 && u.now < t.publishedAt + CONTINUE_TTL_MS
    requires t.publishedAt <= t.now
    ensures Tokens(u.net) > 0 && t.now <= u.now
    decreases |tes|
  {
    if tes != [] {
      assert tes[0] in tes;
      var t1 := TimedStep(t, tes[0]);
      TimedMonotone(t1, tes[1..], u);
      match tes[0] {
        case Tick(_) =>
        case Do(e) =>
          UnsettledBefore(t, tes, u);
          if OutcomeOf(t1.net.wait).Some? {
            UnsettledBefore(t1, tes[1..], u);
          }
          if e != ContinueExpires {
            TokenConserved(t.net, e);
          }
      }
      TokenKept(t1, tes[1..], u);
    }
  }

  lemma {:induction false} TimedMonotone(t: Timed, tes: seq<TimedEvent>, u: Timed)
    requires TimedReaches(t, tes, u)
    ensures t.now <= u.now
    decreases |tes|
  {
    if tes != [] {
      TimedMonotone(TimedStep(t, tes[0]), tes[1..], u);
    }
  }

  /** An unsettled wait was unsettled all along. */
  lemma {:induction false} UnsettledBefore(t: Timed, tes: seq<TimedEvent>, u: Timed)
    requires TimedReaches(t, tes, u) && Do(Return) !in tes
    requires OutcomeOf(u.net.wait).None?
    ensures OutcomeOf(t.net.wait).None?
    decreases |tes|
  {
    if tes != [] {
      assert tes[0] in tes;
      var t1 := TimedStep(t, tes[0]);
      UnsettledBefore(t1, tes[1..], u);
      if tes[0].Do? && OutcomeOf(t.net.wait).Some? {
        SettlesAtMostOnce(t.net, [tes[0].event], t1.net);
      }
    }
  }

  /**
   A continue published while the wait was listening, or less than the timeout before it began
   to listen, is never lost: as long as the wait is unsettled and its deadline has not passed,
   the flag is set, a poll hit is on its way or the message is in the inbox.
   */
  lemma ContinueNeverLost(t: Timed, t1: Timed, tes: seq<TimedEvent>, u: Timed)
    requires t1 == TimedStep(t, Do(PublishContinue)) || t1 == TimedStep(t, Do(SetContinue))
    requires TimedReaches(t1, tes, u) && Do(Return) !in tes
    requires OutcomeOf(u.net.wait).None?
    requires u.now < u.listenSince + WAIT_TIMEOUT_MS
    requires u.listenSince < t.now + WAIT_TIMEOUT_MS
    ensures Tokens(u.net) > 0
  {
    TokenKept(t1, tes, u);
  }

  lemma {:induction false} CancelTraceKept(t: Timed, tes: seq<TimedEvent>, u: Timed)
    requires TimedReaches(t, tes, u) && Do(Return) !in tes && OutcomeOf(u.net.wait).None?
    requires CancelTrace(t.net) && t.cancelledAt <= t.now && u.now < t.cancelledAt + CANCEL_TTL_MS
    ensures CancelTrace(u.net)
    decreases |tes|
  {
    if tes != [] {
      assert tes[0] in tes;
      var t1 := TimedStep(t, tes[0]);
      TimedMonotone(t, tes, u);
      UnsettledBefore(t, tes, u);
      UnsettledBefore(t1, tes[1..], u);
      if tes[0].Do? {
        CancelTraceStep(t.net, tes[0].event);
      }
      CancelTraceKept(t1, tes[1..], u);
    }
  }

  /**
   An accepted cancel is never lost before the wait settles: within the key's lifetime it is in the
   key, in a reply or in the inbox. What settling can do to it is `CancelWinsAtPoll`.
   */
  lemma CancelNeverLost(t: Timed, t1: Timed, tes: seq<TimedEvent>, u: Timed)
    requires t1 == TimedStep(t, Do(PublishCancel)) || t1 == TimedStep(t, Do(SetCancel))
    requires TimedReaches(t1, tes, u) && Do(Return) !in tes && OutcomeOf(u.net.wait).None?
    requires u.now < t.now + CANCEL_TTL_MS
    ensures CancelTrace(u.net)
  {
    CancelTraceKept(t1, tes, u);
  }

  /** From a set flag, one poll and the replies outstanding settle the wait. */
  lemma PollSettles(n: Net) returns (es: seq<Event>, m: Net)
    requires n.wait.Listening? && n.wait.settled.None? && !n.wait.midPoll && n.continueFlag
    ensures Reaches(n, es, m) && OutcomeOf(m.wait).Some?
    ensures OutcomeOf(m.wait).value == Released || OutcomeOf(m.wait).value == Cancelled
  {
    var n1 := Step(n, PollCancelKey);
    var n2 := Step(n1, PollContinueKey);
    assert n2.wait.replies[|n2.wait.replies| - 1] == ContinueReply(true);
    es, m := DrainReplies(n2);
    Push(n1, PollContinueKey, n2, es, m);
    Push(n, PollCancelKey, n1, [PollContinueKey] + es, m);
    es := [PollCancelKey] + ([PollContinueKey] + es);
  }

  lemma DrainReplies(n: Net) returns (es: seq<Event>, m: Net)
    requires n.wait.Listening? && n.wait.settled.None? && !n.wait.midPoll
    requires n.wait.replies != [] && n.wait.replies[|n.wait.replies| - 1].hit
    ensures Reaches(n, es, m) && OutcomeOf(m.wait).Some?
    ensures OutcomeOf(m.wait).value == Released || OutcomeOf(m.wait).value == Cancelled
    decreases |n.wait.replies|
  {
    var n1 := Step(n, ReplyArrives);
    if n1.wait.settled.Some? {
      es, m := [], n1;
    } else {
      es, m := DrainReplies(n1);
    }
    Push(n, ReplyArrives, n1, es, m);
    es := [ReplyArrives] + es;
  }

  // ---------------------------------------------------------------------------------------
  // The closure itself
  // ---------------------------------------------------------------------------------------

  /** The entry of a wait, when both replies come back at once. */
  function EntryEnds(n: Net): Net
    decreases n.wait.EntryCancel?, n.wait.EntryContinue?
  {
    if n.wait.EntryCancel? || n.wait.EntryContinue? then EntryEnds(OnEntryReply(n)) else n
  }

  /**
   The promise executor of `waitForContinueSignal` with its mutable `settled`, the two Redis
   keys it consumes and the queues of replies and messages that will call its handlers.
   */
  class ContinueWaiter {
    var continueFlag: bool
    var cancelFlag: bool
    var settled: Option<Outcome>
    var subscribed: bool
    var replies: seq<Reply>
    var inbox: seq<Message>

    ghost function View(): Net
      reads this
    {
      Net(continueFlag, cancelFlag, Listening(settled, subscribed, false, replies, inbox))
    }

    constructor (continueFlag: bool, cancelFlag: bool)
      ensures View() == Net(continueFlag, cancelFlag, Listening(None, false, false, [], []))
    {
      this.continueFlag, this.cancelFlag := continueFlag, cancelFlag;
      settled, subscribed, replies, inbox := None, false, [], [];
    }

    /** The two getdel commands before the promise is made, with no one else between them. */
    method TakeOnEntry() returns (o: Option<Outcome>)
      requires settled.None? && !subscribed && replies == [] && inbox == []
      modifies this
      ensures o == if old(cancelFlag) then Some(Cancelled) else if old(continueFlag) then Some(Released) else None
      ensures !cancelFlag && (continueFlag <==> old(cancelFlag) && old(continueFlag))
      ensures EntryEnds(Step(Net(old(continueFlag), old(cancelFlag), Idle), Enter)) ==
              Net(continueFlag, cancelFlag, if o.Some? then Done(o.value) else old(View()).wait)
    {
      if cancelFlag {
        cancelFlag := false;
        return Some(Cancelled);
      }
      if continueFlag {
        continueFlag := false;
        return Some(Released);
      }
      o := None;
    }

    method FinishOk()
      modifies this
      ensures old(settled).Some? ==> View() == old(View())
      ensures old(settled).None? ==> settled == Some(Released) && !continueFlag && cancelFlag == old(cancelFlag)
      ensures !subscribed || old(settled).Some?
      ensures replies == old(replies) && inbox == old(inbox)
      ensures View() == SettleOk(old(View()))
    {
      if settled.Some? { return; }
      settled := Some(Released);
      continueFlag := false;
      subscribed := false;
    }

    method FinishCancel()
      modifies this
      ensures old(settled).Some? ==> View() == old(View())
      ensures old(settled).None? ==> settled == Some(Cancelled) && !cancelFlag && continueFlag == old(continueFlag)
      ensures !subscribed || old(settled).Some?
      ensures replies == old(replies) && inbox == old(inbox)
      ensures View() == SettleCancel(old(View()))
    {
      if settled.Some? { return; }
      settled := Some(Cancelled);
      cancelFlag := false;
      subscribed := false;
    }

    method OnTimeout()
      modifies this
      ensures settled == if old(settled).Some? then old(settled) else Some(TimedOut)
      ensures continueFlag == old(continueFlag) && cancelFlag == old(cancelFlag)
      ensures View() == Step(old(View()), TimerFires)
    {
      if settled.Some? { return; }
      settled := Some(TimedOut);
      subscribed := false;
    }

    /** The callback of the subscription, when it failed. */
    method OnSubscribeError()
      modifies this
      ensures settled == if old(settled).Some? then old(settled) else Some(SubscribeFailed)
      ensures continueFlag == old(continueFlag) && cancelFlag == old(cancelFlag)
      ensures View() == Step(old(View()), SubscribeFails)
    {
      if settled.Some? { return; }
      settled := Some(SubscribeFailed);
      subscribed := false;
    }

    method Poll()
      requires settled.None?
      modifies this
      ensures replies == old(replies) + [CancelReply(old(cancelFlag)), ContinueReply(old(continueFlag))]
      ensures !cancelFlag && !continueFlag && settled.None? && inbox == old(inbox)
      ensures View() == Step(Step(old(View()), PollCancelKey), PollContinueKey)
    {
      replies := replies + [CancelReply(cancelFlag)];
      cancelFlag := false;
      replies := replies + [ContinueReply(continueFlag)];
      continueFlag := false;
    }

    method OnReply()
      requires replies != []
      modifies this
      ensures replies == old(replies)[1..] && inbox == old(inbox)
      ensures settled == if old(settled).Some? || !old(replies)[0].hit then old(settled)
                         else if old(replies)[0].CancelReply? then Some(Cancelled) else Some(Released)
      ensures View() == Step(old(View()), ReplyArrives)
    {
      var r := replies[0];
      replies := replies[1..];
      if r.hit {
        match r {
          case CancelReply(_) => FinishCancel();
          case ContinueReply(_) => FinishOk();
        }
      }
    }

    method OnMessage()
      requires inbox != []
      modifies this
      ensures inbox == old(inbox)[1..] && replies == old(replies)
      ensures settled == if old(settled).Some? then old(settled)
                         else if old(inbox)[0] == CancelMessage then Some(Cancelled) else Some(Released)
      ensures View() == Step(old(View()), MessageArrives)
    {
      var m := inbox[0];
      inbox := inbox[1..];
      if m.CancelMessage? {
        FinishCancel();
        return;
      }
      FinishOk();
    }
  }
}
