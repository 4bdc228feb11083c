/** That the poller keeps going: timed polling, the order in which a poll claims, and what a poll waits for. */
module PollerProgress {
  import opened Options
  import opened Sums
  import opened PollerModel
  import opened PollerSafety
  import opened PollerTheorems

  // ---- timed polling

  /** The armed poll timer and the timed polls under way. */
  function Ticks(s: Poller): nat { (if s.pollTimer then 1 else 0) + Sum(s.polls, TIMED) }

  /** A poller that was started and not stopped has exactly one timer or timed poll; any other has no timer. */
  predicate Ticking(s: Poller) {
    && (s.running <==> s.config.autoStart && s.config.admitted && s.stop == NotStopped)
    && (s.running ==> Ticks(s) == 1)
    && (s.pollTimer ==> s.running)
  }

  lemma {:induction false} AdvanceKeepsTimed(s: Poller, p: nat, at: nat)
    requires p < |s.polls| && !s.polls[p].phase.Returned?
    ensures Sum(Advance(s, p, at).polls, TIMED) == Sum(s.polls, TIMED)
    decreases |s.config.tenants| - at
  {
    if at >= |s.config.tenants| {
      SumUpdate(s.polls, p, s.polls[p].(phase := Gathering), TIMED);
    } else if !s.accepting || Count(s.inFlight, s.config.tenants[at]) >= s.config.cap {
      AdvanceKeepsTimed(s, p, at + 1);
    } else {
      SumUpdate(s.polls, p, s.polls[p].(phase := Claiming(at)), TIMED);
    }
  }

  lemma {:induction false} AdvanceTicks(s: Poller, p: nat, at: nat)
    requires p < |s.polls| && !s.polls[p].phase.Returned?
    ensures Ticking(s) ==> Ticking(Advance(s, p, at))
  {
    AdvanceFrame(s, p, at);
    AdvanceKeepsTimed(s, p, at);
  }

  lemma NotifyTicks(s: Poller)
    requires s.waiter ==> s.stop.Draining?
    ensures Ticking(s) ==> Ticking(Notify(s))
  {
  }

  lemma StartPollTicks(s: Poller, timed: bool)
    requires Inv(s) && Ticking(s) && (timed ==> s.pollTimer)
    ensures Ticking(StartPoll(s, timed))
  {
    var timer := if timed then false else s.pollTimer;
    if !s.accepting || !s.config.admitted {
      SumAppend(s.polls, Poll(Returned, timed, []), TIMED);
      NotifyTicks(s.(polls := s.polls + [Poll(Returned, timed, [])],
                     pollTimer := if timed then s.running else s.pollTimer));
    } else {
      SumAppend(s.polls, Poll(Gathering, timed, []), TIMED);
      AdvanceTicks(CountPoll(s, timed, timer), |s.polls|, 0);
    }
  }

  lemma ClaimTicks(s: Poller, p: nat, from: nat)
    requires Inv(s) && Ticking(s) && IsClaiming(s, p)
    ensures Ticking(OnClaimFailed(s, p, from))
  {
    var given := s.(polls := s.polls[p := s.polls[p].(phase := Gathering)],
                    inFlight := Decrement(s.inFlight, s.config.tenants[s.polls[p].phase.at]));
    SumUpdate(s.polls, p, s.polls[p].(phase := Gathering), TIMED);
    NotifyTicks(given);
    AdvanceTicks(Notify(given), p, from);
  }

  lemma ReturnedClaimTicks(s: Poller, p: nat, run: string)
    requires Ticking(s) && IsClaiming(s, p)
    ensures Ticking(OnClaimReturned(s, p, run))
  {
    SumUpdate(s.polls, p, s.polls[p].(phase := Gathering, attempts := s.polls[p].attempts + [|s.attempts|]), TIMED);
    AdvanceTicks(StartAttempt(s, p, s.config.tenants[s.polls[p].phase.at], run), p, s.polls[p].phase.at);
  }

  lemma GatheredTicks(s: Poller, p: nat)
    requires Inv(s) && Ticking(s) && p < |s.polls| && s.polls[p].phase.Gathering?
    ensures Ticking(OnGathered(s, p))
  {
    SumUpdate(s.polls, p, s.polls[p].(phase := Returned), TIMED);
    NotifyTicks(s.(polls := s.polls[p := s.polls[p].(phase := Returned)], activePolls := s.activePolls - 1,
                   pollTimer := s.pollTimer || (s.polls[p].timed && s.running)));
  }

  // ---- the events that leave every poll alone

  predicate IsAloof(e: Event) {
    e.RaceSettles? || e.AttemptMoves? || e.FinallyRuns? || e.StopCalled? || e.DrainTimerFires?
  }

  predicate StaysDone(attempts: seq<Attempt>, next: seq<Attempt>) {
    && |next| == |attempts|
    && (forall a :: 0 <= a < |attempts| && attempts[a].progress.Done? ==> next[a].progress.Done?)
  }

  /** No poll changes, no timer is armed, a stop is never undone, and what is done stays done. */
  predicate Aloof(s: Poller, next: Poller) {
    && next.polls == s.polls && next.config == s.config && StaysDone(s.attempts, next.attempts)
    && (next.stop == NotStopped ==> s.stop == NotStopped)
    && (next.pollTimer, next.running)
       == (if next.stop == NotStopped || s.stop != NotStopped then (s.pollTimer, s.running) else (false, false))
  }

  lemma OneMovesOn(attempts: seq<Attempt>, a: nat, attempt: Attempt)
    requires a < |attempts| && (attempts[a].progress.Done? ==> attempt.progress.Done?)
    ensures StaysDone(attempts, attempts[a := attempt])
  {
  }

  lemma AttemptIsAloof(s: Poller, a: nat, attempt: Attempt, registry: map<string, nat>)
    requires IsAttempt(s, a) && (s.attempts[a].progress.Done? ==> attempt.progress.Done?)
    ensures Aloof(s, Put(s, a, attempt).(registry := registry))
  {
    OneMovesOn(s.attempts, a, attempt);
  }

  lemma FinallyIsAloof(s: Poller, a: nat)
    requires s.waiter ==> s.stop.Draining?
    requires IsAttempt(s, a) && s.attempts[a].progress.Caught?
    ensures Aloof(s, OnFinally(s, a))
  {
    OneMovesOn(s.attempts, a, s.attempts[a].(progress := Done(s.attempts[a].progress.rejected)));
  }

  lemma MoveKeepsDone(a: Attempt, move: Move)
    ensures a.progress.Done? ==> Moved(a, move).progress.Done?
  {
  }

  lemma AllMoveOn(attempts: seq<Attempt>, registry: map<string, nat>)
    ensures StaysDone(attempts, TimeOutRegistered(attempts, registry))
  {
  }

  lemma DrainTimerIsAloof(s: Poller)
    requires s.stop.Draining?
    ensures Aloof(s, OnDrainTimer(s))
  {
    if Drained(s) {
      FinishIsAloof(s, false, 0);
    } else {
      AllMoveOn(s.attempts, s.registry);
      FinishIsAloof(MarkAll(s), true, Total(s.inFlight));
    }
  }

  lemma FinishIsAloof(s: Poller, timedOut: bool, inFlight: int)
    requires s.stop.Draining?
    ensures Aloof(s, Finish(s, timedOut, inFlight))
  {
  }

  lemma NothingIsAloof(s: Poller)
    ensures Aloof(s, s)
  {
  }

  lemma StopIsAloof(s: Poller, validTimeout: bool)
    ensures Aloof(s, OnStop(s, validTimeout))
  {
  }

  lemma RaceEventIsAloof(s: Poller, a: nat, rejected: bool)
    ensures Aloof(s, Next(s, RaceSettles(a, rejected)))
  {
    if IsAttempt(s, a) && s.attempts[a].progress.Racing? {
      AttemptIsAloof(s, a, StopHeartbeat(s.attempts[a]).(progress := Detached(rejected)),
                     s.registry - {s.attempts[a].Key()});
    } else {
      NothingIsAloof(s);
    }
  }

  lemma MoveEventIsAloof(s: Poller, a: nat, move: Move)
    ensures Aloof(s, Next(s, AttemptMoves(a, move)))
  {
    if IsAttempt(s, a) {
      MoveKeepsDone(s.attempts[a], move);
      AttemptIsAloof(s, a, Moved(s.attempts[a], move), s.registry);
    } else {
      NothingIsAloof(s);
    }
  }

  lemma FinallyEventIsAloof(s: Poller, a: nat)
    requires s.waiter ==> s.stop.Draining?
    ensures Aloof(s, Next(s, FinallyRuns(a)))
  {
    if IsAttempt(s, a) && s.attempts[a].progress.Caught? {
      FinallyIsAloof(s, a);
    } else {
      NothingIsAloof(s);
    }
  }

  lemma AloofEvents(s: Poller, e: Event)
    requires Inv(s) && IsAloof(e)
    ensures Aloof(s, Next(s, e))
  {
    match e
    case RaceSettles(a, rejected) => RaceEventIsAloof(s, a, rejected);
    case AttemptMoves(a, move) => MoveEventIsAloof(s, a, move);
    case FinallyRuns(a) => FinallyEventIsAloof(s, a);
    case StopCalled(validTimeout) => StopIsAloof(s, validTimeout);
    case DrainTimerFires => if s.drainTimer { DrainTimerIsAloof(s); } else { NothingIsAloof(s); }
  }

  lemma PollTicks(s: Poller, e: Event)
    requires Inv(s) && Ticking(s) && (e.PollCalled? || e.PollTimerFires? || e.Gathered?)
    ensures Ticking(Next(s, e))
  {
    match e
    case PollCalled => StartPollTicks(s, false);
    case PollTimerFires => if s.pollTimer { StartPollTicks(s, true); }
    case Gathered(p) => if p < |s.polls| && s.polls[p].phase.Gathering? { GatheredTicks(s, p); }
  }

  lemma ClaimEventTicks(s: Poller, e: Event)
    requires Inv(s) && Ticking(s) && (e.ClaimRejected? || e.ClaimEmpty? || e.ClaimReturned?)
    ensures Ticking(Next(s, e))
  {
    if IsClaiming(s, e.p) {
      match e
      case ClaimRejected(p) => ClaimTicks(s, p, s.polls[p].phase.at);
      case ClaimEmpty(p) => ClaimTicks(s, p, s.polls[p].phase.at + 1);
      case ClaimReturned(p, run) => ReturnedClaimTicks(s, p, run);
    }
  }

  lemma NextTicks(s: Poller, e: Event)
    requires Inv(s) && Ticking(s)
    ensures Ticking(Next(s, e))
  {
    if IsAloof(e) {
      AloofEvents(s, e);
    } else if e.PollCalled? || e.PollTimerFires? || e.Gathered? {
      PollTicks(s, e);
    } else {
      ClaimEventTicks(s, e);
    }
  }

  lemma {:induction false} RunTicks(s: Poller, events: seq<Event>)
    requires Inv(s) && Ticking(s)
    ensures Ticking(Run(s, events))
    decreases events
  {
    if events != [] {
      NextKeepsInv(s, events[0]);
      NextTicks(s, events[0]);
      RunTicks(Next(s, events[0]), events[1..]);
    }
  }

  lemma {:induction false} ConfigStays(s: Poller, events: seq<Event>)
    requires Inv(s)
    ensures Run(s, events).config == s.config
    decreases events
  {
    if events != [] {
      NextKeepsInv(s, events[0]);
      NextKeepsConfig(s, events[0]);
      ConfigStays(Next(s, events[0]), events[1..]);
    }
  }

  lemma NextKeepsConfig(s: Poller, e: Event)
    ensures Next(s, e).config == s.config
  {
    match e
    case PollCalled => AdmittedKeepsConfig(s, false);
    case PollTimerFires => AdmittedKeepsConfig(s, true);
    case ClaimRejected(p) => if IsClaiming(s, p) { GivenBackKeepsConfig(s, p, s.polls[p].phase.at); }
    case ClaimEmpty(p) => if IsClaiming(s, p) { GivenBackKeepsConfig(s, p, s.polls[p].phase.at + 1); }
    case ClaimReturned(p, run) =>
      if IsClaiming(s, p) {
        AdvanceFrame(StartAttempt(s, p, s.config.tenants[s.polls[p].phase.at], run), p, s.polls[p].phase.at);
      }
    case _ =>
  }

  lemma AdmittedKeepsConfig(s: Poller, timed: bool)
    ensures StartPoll(s, timed).config == s.config
  {
    AdvanceFrame(CountPoll(s, timed, if timed then false else s.pollTimer), |s.polls|, 0);
  }

  lemma GivenBackKeepsConfig(s: Poller, p: nat, from: nat)
    requires IsClaiming(s, p)
    ensures OnClaimFailed(s, p, from).config == s.config
  {
    AdvanceFrame(DecrementInFlight(s.(polls := s.polls[p := s.polls[p].(phase := Gathering)]),
                                   s.config.tenants[s.polls[p].phase.at]), p, from);
  }

  /**
   Timed polling never dies and never doubles: over every run, a poller that is started automatically, admitted and not
   yet stopped has exactly one poll timer armed or one timed poll under way; in every other state no timer is armed.
   */
  lemma {:induction false} TimedPollingGoesOn(config: Config, events: seq<Event>)
    ensures var s := Run(Start(config), events);
            var on := config.autoStart && config.admitted && s.stop == NotStopped;
            && (on ==> (if s.pollTimer then 1 else 0) + Sum(s.polls, TIMED) == 1)
            && (!on ==> !s.pollTimer)
  {
    StartInv(config);
    RunTicks(Start(config), events);
    ConfigStays(Start(config), events);
  }

  // ---- which tenant a poll claims for next

  /** The first tenant from an index on that is below the cap, or the end of the list. */
  predicate IsNextTenant(s: Poller, from: nat, found: nat) {
    && from <= found <= |s.config.tenants|
    && (forall k :: from <= k < found ==> Count(s.inFlight, s.config.tenants[k]) >= s.config.cap)
    && (found < |s.config.tenants| ==> Count(s.inFlight, s.config.tenants[found]) < s.config.cap)
  }

  /** The claim loop reserves for the first tenant below the cap, or ends; one that stopped claiming ends at once. */
  lemma {:induction false} AdvanceClaimsForTheFirst(s: Poller, p: nat, from: nat, found: nat)
    requires p < |s.polls| && IsNextTenant(s, from, found)
    ensures var next := Advance(s, p, from); var claims := s.accepting && found < |s.config.tenants|;
            && next.polls == s.polls[p := s.polls[p].(phase := if claims then Claiming(found) else Gathering)]
            && forall t :: Count(next.inFlight, t) == Count(s.inFlight, t)
                                                      + if claims && t == s.config.tenants[found] then 1 else 0
    decreases |s.config.tenants| - from
  {
    if from < |s.config.tenants| && (!s.accepting || Count(s.inFlight, s.config.tenants[from]) >= s.config.cap) {
      if from < found {
        AdvanceClaimsForTheFirst(s, p, from + 1, found);
      } else {
        NotAccepting(s, p, from + 1);
      }
    }
  }

  lemma {:induction false} NotAccepting(s: Poller, p: nat, from: nat)
    requires p < |s.polls| && !s.accepting
    ensures Advance(s, p, from) == s.(polls := s.polls[p := s.polls[p].(phase := Gathering)])
    decreases |s.config.tenants| - from
  {
    if from < |s.config.tenants| {
      NotAccepting(s, p, from + 1);
    }
  }

  /** When the poll timer fires, the poll claims for the first tenant below its cap. */
  lemma TimerPollClaims(s: Poller, found: nat)
    requires Inv(s) && Ticking(s) && s.pollTimer && IsNextTenant(s, 0, found)
    ensures var next := Next(s, PollTimerFires);
            && |next.polls| == |s.polls| + 1 && !next.pollTimer && next.activePolls == s.activePolls + 1
            && next.polls[|s.polls|]
               == Poll(if found < |s.config.tenants| then Claiming(found) else Gathering, true, [])
  {
    var counted := CountPoll(s, true, false);
    AdvanceFrame(counted, |s.polls|, 0);
    AdvanceClaimsForTheFirst(counted, |s.polls|, 0, found);
  }

  /** The poller once a claim's reservation has been given back. */
  function GivenBack(s: Poller, p: nat): Poller
    requires IsClaiming(s, p)
  {
    s.(polls := s.polls[p := s.polls[p].(phase := Gathering)],
       inFlight := Decrement(s.inFlight, s.config.tenants[s.polls[p].phase.at]))
  }

  lemma {:induction false} FailedClaimGoesOnFrom(s: Poller, p: nat, from: nat)
    requires Inv(s) && IsClaiming(s, p)
    ensures OnClaimFailed(s, p, from) == Advance(GivenBack(s, p), p, from)
  {
    ClaimGivesBack(s, p, Decrement(s.inFlight, s.config.tenants[s.polls[p].phase.at]));
    assert Notify(GivenBack(s, p)) == GivenBack(s, p);
  }

  lemma ReservationGivenBack(s: Poller, p: nat)
    requires Inv(s) && IsClaiming(s, p)
    ensures forall t :: Count(GivenBack(s, p).inFlight, t)
                     == Count(s.inFlight, t) - if t == s.config.tenants[s.polls[p].phase.at] then 1 else 0
    ensures IsNextTenant(GivenBack(s, p), s.polls[p].phase.at, s.polls[p].phase.at)
  {
    var tenant := s.config.tenants[s.polls[p].phase.at];
    ClaimIsCounted(s.config, s.inFlight, s.polls, s.attempts, p);
    DecrementTotal(s.inFlight, tenant);
    assert Count(s.inFlight, tenant) <= s.config.cap;
  }

  /** A rejected claim is sent again for the same tenant, on the same reservation, unless the poller has stopped. */
  lemma RejectedClaimIsRetried(s: Poller, p: nat)
    requires Inv(s) && IsClaiming(s, p)
    ensures var next := Next(s, ClaimRejected(p));
            && |next.polls| == |s.polls|
            && next.polls[p] == s.polls[p].(phase := if s.accepting then s.polls[p].phase else Gathering)
            && (s.accepting ==> forall t :: Count(next.inFlight, t) == Count(s.inFlight, t))
  {
    FailedClaimGoesOnFrom(s, p, s.polls[p].phase.at);
    ReservationGivenBack(s, p);
    AdvanceClaimsForTheFirst(GivenBack(s, p), p, s.polls[p].phase.at, s.polls[p].phase.at);
  }

  /** The poll's phase once it looks for its next tenant from an index on. */
  ghost predicate MovesOn(s: Poller, p: nat, from: nat, next: Poller) {
    forall found: nat | IsNextTenant(s, from, found) ::
      && p < |s.polls| == |next.polls|
      && next.polls[p] == s.polls[p].(phase := if s.accepting && found < |s.config.tenants| then Claiming(found)
                                               else Gathering)
  }

  /** An empty claim gives its reservation back and moves on to the next tenant below the cap. */
  lemma EmptyClaimMovesOn(s: Poller, p: nat)
    requires Inv(s) && IsClaiming(s, p)
    ensures MovesOn(GivenBack(s, p), p, s.polls[p].phase.at + 1, Next(s, ClaimEmpty(p)))
  {
    EmptyClaimGivesBack(s, p);
    GoesOn(GivenBack(s, p), p, s.polls[p].phase.at + 1);
  }

  lemma {:induction false} EmptyClaimGivesBack(s: Poller, p: nat)
    requires Inv(s) && IsClaiming(s, p)
    ensures Next(s, ClaimEmpty(p)) == Advance(GivenBack(s, p), p, s.polls[p].phase.at + 1)
  {
    FailedClaimGoesOnFrom(s, p, s.polls[p].phase.at + 1);
  }

  lemma {:induction false} GoesOn(s: Poller, p: nat, from: nat)
    requires p < |s.polls|
    ensures MovesOn(s, p, from, Advance(s, p, from))
  {
    forall found: nat | IsNextTenant(s, from, found)
      ensures |Advance(s, p, from).polls| == |s.polls|
      ensures Advance(s, p, from).polls[p]
              == s.polls[p].(phase := if s.accepting && found < |s.config.tenants| then Claiming(found) else Gathering)
    {
      AdvanceClaimsForTheFirst(s, p, from, found);
    }
  }

  /** A claim that returns a task starts it in its poll, on its reservation; the same tenant is next, up to the cap. */
  lemma ReturnedClaimGoesOn(s: Poller, p: nat, run: string, found: nat)
    requires Inv(s) && IsClaiming(s, p) && IsNextTenant(s, s.polls[p].phase.at, found)
    ensures var next := Next(s, ClaimReturned(p, run)); var tenant := s.config.tenants[s.polls[p].phase.at];
            && |next.attempts| == |s.attempts| + 1
            && next.attempts[|s.attempts|].tenant == tenant && next.attempts[|s.attempts|].run == run
            && next.attempts[|s.attempts|].progress == Racing
            && |next.polls| == |s.polls| && next.polls[p].attempts == s.polls[p].attempts + [|s.attempts|]
            && next.polls[p].phase == (if s.accepting && found < |s.config.tenants| then Claiming(found) else Gathering)
  {
    var started := StartAttempt(s, p, s.config.tenants[s.polls[p].phase.at], run);
    AdvanceFrame(started, p, s.polls[p].phase.at);
    AdvanceClaimsForTheFirst(started, p, s.polls[p].phase.at, found);
  }

  // ---- what a poll waits for

  predicate BelongsToAPoll(polls: seq<Poll>, a: nat) { exists p :: 0 <= p < |polls| && a in polls[p].attempts }

  /** A poll names attempts that exist, all finished once it has returned. */
  predicate PollWaits(poll: Poll, attempts: seq<Attempt>) {
    forall i :: 0 <= i < |poll.attempts| ==>
      poll.attempts[i] < |attempts| && (poll.phase.Returned? ==> attempts[poll.attempts[i]].progress.Done?)
  }

  /** Every attempt belongs to a poll, and a poll that has returned has no unfinished one. */
  predicate Waits(polls: seq<Poll>, attempts: seq<Attempt>) {
    && (forall p :: 0 <= p < |polls| ==> PollWaits(polls[p], attempts))
    && (forall a :: 0 <= a < |attempts| ==> BelongsToAPoll(polls, a))
  }

  lemma StillBelongs(polls: seq<Poll>, next: seq<Poll>, a: nat)
    requires |polls| <= |next| && (forall p :: 0 <= p < |polls| ==> polls[p].attempts <= next[p].attempts)
    requires BelongsToAPoll(polls, a)
    ensures BelongsToAPoll(next, a)
  {
    var p :| 0 <= p < |polls| && a in polls[p].attempts;
    var i :| 0 <= i < |polls[p].attempts| && polls[p].attempts[i] == a;
    assert next[p].attempts[i] == a;
  }

  lemma PollChangesWait(polls: seq<Poll>, attempts: seq<Attempt>, p: nat, poll: Poll)
    requires Waits(polls, attempts) && p < |polls| && poll.attempts == polls[p].attempts && PollWaits(poll, attempts)
    ensures Waits(polls[p := poll], attempts)
  {
    var next := polls[p := poll];
    forall a | 0 <= a < |attempts| ensures BelongsToAPoll(next, a) {
      StillBelongs(polls, next, a);
    }
  }

  lemma PollJoinsWait(polls: seq<Poll>, attempts: seq<Attempt>, poll: Poll)
    requires Waits(polls, attempts) && poll.attempts == []
    ensures Waits(polls + [poll], attempts)
  {
    var next := polls + [poll];
    forall a | 0 <= a < |attempts| ensures BelongsToAPoll(next, a) {
      StillBelongs(polls, next, a);
    }
  }

  lemma AttemptJoinsWait(polls: seq<Poll>, attempts: seq<Attempt>, p: nat, attempt: Attempt, poll: Poll)
    requires Waits(polls, attempts) && p < |polls| && poll.attempts == polls[p].attempts + [|attempts|]
    requires !poll.phase.Returned?
    ensures Waits(polls[p := poll], attempts + [attempt])
  {
    var next, all := polls[p := poll], attempts + [attempt];
    forall a | 0 <= a < |all| ensures BelongsToAPoll(next, a) {
      if a < |attempts| {
        StillBelongs(polls, next, a);
      } else {
        assert next[p].attempts[|polls[p].attempts|] == a;
      }
    }
    assert PollWaits(polls[p], attempts);
    forall q | 0 <= q < |next| ensures PollWaits(next[q], all) {
      assert PollWaits(polls[q], attempts);
    }
  }

  /** Attempts only move on. */
  lemma AttemptsChangeWait(polls: seq<Poll>, attempts: seq<Attempt>, next: seq<Attempt>)
    requires Waits(polls, attempts) && |next| == |attempts|
    requires forall a :: 0 <= a < |attempts| && attempts[a].progress.Done? ==> next[a].progress.Done?
    ensures Waits(polls, next)
  {
    forall q | 0 <= q < |polls| ensures PollWaits(polls[q], next) {
      assert PollWaits(polls[q], attempts);
    }
  }

  lemma {:induction false} AdvanceWaits(s: Poller, p: nat, at: nat)
    requires p < |s.polls| && Waits(s.polls, s.attempts) && !s.polls[p].phase.Returned?
    ensures Waits(Advance(s, p, at).polls, s.attempts)
    decreases |s.config.tenants| - at
  {
    assert PollWaits(s.polls[p], s.attempts);
    if at >= |s.config.tenants| {
      PollChangesWait(s.polls, s.attempts, p, s.polls[p].(phase := Gathering));
    } else if !s.accepting {
      AdvanceWaits(s, p, at + 1);
    } else if Count(s.inFlight, s.config.tenants[at]) >= s.config.cap {
      AdvanceWaits(s, p, at + 1);
    } else {
      PollChangesWait(s.polls, s.attempts, p, s.polls[p].(phase := Claiming(at)));
    }
  }

  lemma PollsWait(s: Poller, timed: bool)
    requires Waits(s.polls, s.attempts)
    ensures Waits(StartPoll(s, timed).polls, StartPoll(s, timed).attempts)
  {
    if !s.accepting || !s.config.admitted {
      PollJoinsWait(s.polls, s.attempts, Poll(Returned, timed, []));
    } else {
      var counted := CountPoll(s, timed, if timed then false else s.pollTimer);
      PollJoinsWait(s.polls, s.attempts, Poll(Gathering, timed, []));
      AdvanceFrame(counted, |s.polls|, 0);
      AdvanceWaits(counted, |s.polls|, 0);
    }
  }

  lemma GivingBackWaits(s: Poller, p: nat, from: nat)
    requires Inv(s) && Waits(s.polls, s.attempts) && IsClaiming(s, p)
    ensures Waits(OnClaimFailed(s, p, from).polls, OnClaimFailed(s, p, from).attempts)
  {
    FailedClaimGoesOnFrom(s, p, from);
    assert PollWaits(s.polls[p], s.attempts);
    PollChangesWait(s.polls, s.attempts, p, s.polls[p].(phase := Gathering));
    AdvanceFrame(GivenBack(s, p), p, from);
    AdvanceWaits(GivenBack(s, p), p, from);
  }

  lemma StartingWaits(s: Poller, p: nat, run: string)
    requires Waits(s.polls, s.attempts) && IsClaiming(s, p)
    ensures Waits(OnClaimReturned(s, p, run).polls, OnClaimReturned(s, p, run).attempts)
  {
    var started := StartAttempt(s, p, s.config.tenants[s.polls[p].phase.at], run);
    AttemptJoinsWait(s.polls, s.attempts, p, started.attempts[|s.attempts|], started.polls[p]);
    AdvanceFrame(started, p, s.polls[p].phase.at);
    AdvanceWaits(started, p, s.polls[p].phase.at);
  }

  lemma AloofEventWaits(s: Poller, e: Event)
    requires Inv(s) && Waits(s.polls, s.attempts) && IsAloof(e)
    ensures Waits(Next(s, e).polls, Next(s, e).attempts)
  {
    AloofEvents(s, e);
    AttemptsChangeWait(s.polls, s.attempts, Next(s, e).attempts);
  }

  lemma GatheringWaits(s: Poller, p: nat)
    requires Waits(s.polls, s.attempts) && p < |s.polls| && s.polls[p].phase.Gathering? && AllDone(s, p)
    ensures Waits(OnGathered(s, p).polls, OnGathered(s, p).attempts)
  {
    PollChangesWait(s.polls, s.attempts, p, s.polls[p].(phase := Returned));
  }

  lemma PollEventWaits(s: Poller, e: Event)
    requires Inv(s) && Waits(s.polls, s.attempts) && (e.PollCalled? || e.PollTimerFires? || e.Gathered?)
    ensures Waits(Next(s, e).polls, Next(s, e).attempts)
  {
    match e
    case PollCalled => PollsWait(s, false);
    case PollTimerFires => if s.pollTimer { PollsWait(s, true); }
    case Gathered(p) => if p < |s.polls| && s.polls[p].phase.Gathering? && AllDone(s, p) { GatheringWaits(s, p); }
  }

  lemma FailedClaimWaits(s: Poller, e: Event)
    requires Inv(s) && Waits(s.polls, s.attempts) && (e.ClaimRejected? || e.ClaimEmpty?)
    ensures Waits(Next(s, e).polls, Next(s, e).attempts)
  {
    if IsClaiming(s, e.p) {
      GivingBackWaits(s, e.p, s.polls[e.p].phase.at + if e.ClaimEmpty? then 1 else 0);
    }
  }

  lemma ReturnedClaimWaits(s: Poller, p: nat, run: string)
    requires Waits(s.polls, s.attempts)
    ensures Waits(Next(s, ClaimReturned(p, run)).polls, Next(s, ClaimReturned(p, run)).attempts)
  {
    if IsClaiming(s, p) { StartingWaits(s, p, run); }
  }

  lemma NextWaits(s: Poller, e: Event)
    requires Inv(s) && Waits(s.polls, s.attempts)
    ensures Waits(Next(s, e).polls, Next(s, e).attempts)
  {
    if IsAloof(e) {
      AloofEventWaits(s, e);
    } else if e.PollCalled? || e.PollTimerFires? || e.Gathered? {
      PollEventWaits(s, e);
    } else if e.ClaimReturned? {
      ReturnedClaimWaits(s, e.p, e.run);
    } else {
      FailedClaimWaits(s, e);
    }
  }

  lemma {:induction false} RunWaits(s: Poller, events: seq<Event>)
    requires Inv(s) && Waits(s.polls, s.attempts)
    ensures Waits(Run(s, events).polls, Run(s, events).attempts)
    decreases events
  {
    if events != [] {
      NextKeepsInv(s, events[0]);
      NextWaits(s, events[0]);
      RunWaits(Next(s, events[0]), events[1..]);
    }
  }

  /**
   In every reachable state each attempt belongs to a poll, and a poll that has returned has only finished ones; so
   with its count of claimed tasks it answers for all of them.
   */
  lemma {:induction false} PollsReturnAfterTheirTasks(config: Config, events: seq<Event>)
    ensures var s := Run(Start(config), events);
            && (forall a :: 0 <= a < |s.attempts| ==> BelongsToAPoll(s.polls, a))
            && (forall p, i :: 0 <= p < |s.polls| && s.polls[p].phase == Returned && 0 <= i < |s.polls[p].attempts| ==>
                  s.polls[p].attempts[i] < |s.attempts| && s.attempts[s.polls[p].attempts[i]].progress.Done?)
  {
    StartInv(config);
    RunWaits(Start(config), events);
    var s := Run(Start(config), events);
    assert forall p :: 0 <= p < |s.polls| ==> PollWaits(s.polls[p], s.attempts);
  }

  // ---- what is due happens

  /**
   The first stop in time ends claiming and timed polling for good, and resolves at once if nothing is outstanding.
   */
  lemma StopStops(s: Poller)
    requires Inv(s) && s.stop == NotStopped
    ensures var next := Next(s, StopCalled(true));
            var quiet := s.activePolls == 0 && OwedInAll(s.polls, s.attempts) == 0;
            && !next.accepting && !next.running && !next.pollTimer
            && next.stop == (if quiet then Resolved(false, 0) else Draining)
            && next.drainTimer == !quiet && next.waiter == !quiet
            && next.polls == s.polls && next.attempts == s.attempts && next.inFlight == s.inFlight
    ensures Next(s, StopCalled(false)) == s
  {
  }

  lemma SecondStopIsTheFirst(s: Poller, validTimeout: bool)
    requires s.stop != NotStopped
    ensures Next(s, StopCalled(validTimeout)) == s
  {
  }

  /** A race that is over stops the heartbeat and takes the attempt's key out of the registry. */
  lemma SettledRaceLeavesTheRegistry(s: Poller, a: nat, rejected: bool)
    requires IsAttempt(s, a) && s.attempts[a].progress.Racing?
    ensures var next := Next(s, RaceSettles(a, rejected));
            && next.attempts == s.attempts[a := next.attempts[a]]
            && next.attempts[a].progress == Detached(rejected) && next.attempts[a].settled
            && next.attempts[a].handle.None?
            && next.registry == s.registry - {s.attempts[a].tenant + ":" + s.attempts[a].run}
  {
  }

  /** An attempt that is done is off the ledger. */
  lemma FinishedAttemptLeavesTheLedger(s: Poller, a: nat)
    requires Inv(s) && IsAttempt(s, a) && s.attempts[a].progress.Caught?
    ensures var next := Next(s, FinallyRuns(a));
            && next.attempts == s.attempts[a := s.attempts[a].(progress := Done(s.attempts[a].progress.rejected))]
            && forall t :: Count(next.inFlight, t) == Count(s.inFlight, t) - if t == s.attempts[a].tenant then 1 else 0
  {
    AttemptIsCounted(s.config, s.inFlight, s.polls, s.attempts, a);
    DecrementTotal(s.inFlight, s.attempts[a].tenant);
  }

  /** A poll whose tasks are done returns, and a timed one arms the next while the poller runs. */
  lemma GatheredPollReturns(s: Poller, p: nat)
    requires p < |s.polls| && s.polls[p].phase.Gathering? && AllDone(s, p)
    ensures var next := Next(s, Gathered(p));
            && next.polls == s.polls[p := s.polls[p].(phase := Returned)] && next.activePolls == s.activePolls - 1
            && next.pollTimer == (s.pollTimer || (s.polls[p].timed && s.running))
  {
  }

  /** A poll that is called claims like one the timer starts; a poller that stopped claiming lets it return. */
  lemma CalledPollClaims(s: Poller, found: nat)
    requires Inv(s) && IsNextTenant(s, 0, found)
    ensures var next := Next(s, PollCalled); var admitted := s.accepting && s.config.admitted;
            && |next.polls| == |s.polls| + 1 && next.pollTimer == s.pollTimer
            && next.activePolls == s.activePolls + (if admitted then 1 else 0)
            && next.polls[|s.polls|].attempts == [] && !next.polls[|s.polls|].timed
            && next.polls[|s.polls|].phase
               == (if !admitted then Returned else if found < |s.config.tenants| then Claiming(found) else Gathering)
  {
    if s.accepting && s.config.admitted {
      var counted := CountPoll(s, false, s.pollTimer);
      AdvanceFrame(counted, |s.polls|, 0);
      AdvanceClaimsForTheFirst(counted, |s.polls|, 0, found);
    }
  }
}
