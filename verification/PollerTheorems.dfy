/** The promises of the poller, over every run. */
module PollerTheorems {
  import opened Options
  import opened Sums
  import opened PollerModel
  import opened PollerSafety

  lemma {:induction false} ReachableInv(config: Config, events: seq<Event>)
    ensures Inv(Run(Start(config), events))
  {
    StartInv(config);
    RunKeepsInv(Start(config), events);
  }

  /**
   The ledger. However polls overlap, each tenant's entry is its pending claims plus its unfinished
   attempts, never above the cap and never stored as zero, and the total counts everything outstanding.
   */
  lemma {:induction false} LedgerIsExact(config: Config, events: seq<Event>, tenant: Tenant)
    ensures var s := Run(Start(config), events);
            && Count(s.inFlight, tenant) == Owed(s.config, s.polls, s.attempts, tenant) <= s.config.cap
            && (tenant in s.inFlight <==> Owed(s.config, s.polls, s.attempts, tenant) > 0)
            && Total(s.inFlight) == OwedInAll(s.polls, s.attempts)
  {
    ReachableInv(config, events);
  }

  /** The entry every decrement needs is there, so the default of one is never used. */
  lemma {:induction false} DecrementDefaultIsNeverUsed(config: Config, events: seq<Event>)
    ensures var s := Run(Start(config), events);
            && (forall p: nat :: IsClaiming(s, p) ==> s.config.tenants[s.polls[p].phase.at] in s.inFlight)
            && (forall a: nat ::
                 IsAttempt(s, a) && s.attempts[a].progress.Caught? ==> s.attempts[a].tenant in s.inFlight)
  {
    ReachableInv(config, events);
    var s := Run(Start(config), events);
    forall p: nat | IsClaiming(s, p) ensures s.config.tenants[s.polls[p].phase.at] in s.inFlight {
      ClaimIsCounted(s.config, s.inFlight, s.polls, s.attempts, p);
    }
    forall a: nat | IsAttempt(s, a) && s.attempts[a].progress.Caught? ensures s.attempts[a].tenant in s.inFlight {
      AttemptIsCounted(s.config, s.inFlight, s.polls, s.attempts, a);
    }
  }

  // ---- the drain

  /**
   A waiting stop is never asleep on a drained poller and its timer is armed; the promise is resolved
   at most once; a clean result is given only on a drained poller, and a timeout only once marked.
   */
  lemma {:induction false} DrainIsCorrect(config: Config, events: seq<Event>)
    ensures var s := Run(Start(config), events);
            && (s.waiter ==> !Drained(s) && s.drainTimer && s.stop.Draining?)
            && (s.stop.Draining? ==> s.waiter)
            && s.resolutions <= 1 && (s.resolutions == 1 <==> s.stop.Resolved?)
            && (s.stop.Resolved? && !s.stop.timedOut ==> Drained(s) && s.stop.inFlight == 0)
            && (s.stop.Resolved? && s.stop.timedOut ==> s.timeoutReason)
  {
    ReachableInv(config, events);
  }

  /**
   The two ways a drain ends: told by the last one out, or by its timer, which reports exactly what is outstanding.
   */
  lemma {:induction false} DrainEnds(config: Config, events: seq<Event>, e: Event)
    requires Run(Start(config), events).stop.Draining?
    ensures var s, next := Run(Start(config), events), Next(Run(Start(config), events), e);
            && (e == DrainTimerFires ==> next.stop == Resolved(true, OwedInAll(s.polls, s.attempts)))
            && (e != DrainTimerFires ==>
                  next.stop == if next.activePolls == 0
                    && OwedInAll(next.polls, next.attempts) == 0 then Resolved(false, 0) else Draining)
  {
    ReachableInv(config, events);
    var s := Run(Start(config), events);
    NextKeepsInv(s, e);
    if e == DrainTimerFires {
      DrainTimerKeeps(s);
    } else {
      OnlyTheTimerTimesOut(s, e);
    }
  }

  lemma OnlyTheTimerTimesOut(s: Poller, e: Event)
    requires s.stop.Draining? && e != DrainTimerFires
    ensures Next(s, e).stop in {Draining, Resolved(false, 0)}
  {
    match e
    case PollCalled => StartPollFrame(s, false);
    case PollTimerFires => StartPollFrame(s, true);
    case ClaimRejected(p) => if IsClaiming(s, p) { ClaimFailedFrame(s, p, s.polls[p].phase.at); }
    case ClaimEmpty(p) => if IsClaiming(s, p) { ClaimFailedFrame(s, p, s.polls[p].phase.at + 1); }
    case ClaimReturned(p, run) =>
      if IsClaiming(s, p) {
        AdvanceFrame(StartAttempt(s, p, s.config.tenants[s.polls[p].phase.at], run), p, s.polls[p].phase.at);
      }
    case _ => AttemptsDoNotTimeOut(s, e);
  }

  lemma AttemptsDoNotTimeOut(s: Poller, e: Event)
    requires s.stop.Draining?
    requires e.RaceSettles? || e.AttemptMoves? || e.FinallyRuns? || e.Gathered? || e.StopCalled?
    ensures Next(s, e).stop in {Draining, Resolved(false, 0)}
  {
  }

  lemma {:induction false} AdvanceFrame(s: Poller, p: nat, at: nat)
    requires p < |s.polls|
    ensures Advance(s, p, at) == s.(inFlight := Advance(s, p, at).inFlight, polls := Advance(s, p, at).polls)
    decreases |s.config.tenants| - at
  {
    if at < |s.config.tenants| && (!s.accepting || Count(s.inFlight, s.config.tenants[at]) >= s.config.cap) {
      AdvanceFrame(s, p, at + 1);
    }
  }

  /** Attempts and the registry are untouched, and the stop result can only become a clean one. */
  predicate SameAttempts(s: Poller, next: Poller) {
    next.attempts == s.attempts && next.registry == s.registry && next.stop in {s.stop, Resolved(false, 0)}
  }

  lemma ClaimFailedFrame(s: Poller, p: nat, from: nat)
    requires IsClaiming(s, p)
    ensures SameAttempts(s, OnClaimFailed(s, p, from))
  {
    AdvanceFrame(DecrementInFlight(s.(polls := s.polls[p := s.polls[p].(phase := Gathering)]),
                                   s.config.tenants[s.polls[p].phase.at]), p, from);
  }

  lemma StartPollFrame(s: Poller, timed: bool)
    ensures SameAttempts(s, StartPoll(s, timed))
  {
    if s.accepting && s.config.admitted {
      AdvanceFrame(CountPoll(s, timed, if timed then false else s.pollTimer), |s.polls|, 0);
    }
  }

  /** Nothing pending and nothing running. */
  predicate Quiet(s: Poller) {
    && (forall p :: 0 <= p < |s.polls| ==> s.polls[p].phase.Returned?)
    && (forall a :: 0 <= a < |s.attempts| ==> s.attempts[a].progress.Done?)
  }

  lemma CleanDrainIsQuiet(s: Poller)
    requires Inv(s) && s.stop == Resolved(false, 0)
    ensures Quiet(s)
  {
    forall p | 0 <= p < |s.polls| ensures s.polls[p].phase.Returned? {
      SumZero(s.polls, ACTIVE, p);
    }
    forall a | 0 <= a < |s.attempts| ensures s.attempts[a].progress.Done? {
      SumZero(s.attempts, UNFINISHED, a);
    }
  }

  lemma QuietStaysQuiet(s: Poller, e: Event)
    requires Inv(s) && Quiet(s) && s.stop == Resolved(false, 0)
    ensures Next(s, e).stop == Resolved(false, 0) && |Next(s, e).attempts| == |s.attempts|
  {
  }

  /** After a clean drain no claim is ever sent and no attempt ever starts; the result stands. */
  lemma {:induction false} NothingStartsAfterACleanDrain(s: Poller, later: seq<Event>)
    requires Inv(s) && s.stop == Resolved(false, 0)
    ensures var end := Run(s, later);
            && end.stop == Resolved(false, 0) && Quiet(end) && |end.attempts| == |s.attempts|
    decreases later
  {
    CleanDrainIsQuiet(s);
    if later != [] {
      NextKeepsInv(s, later[0]);
      QuietStaysQuiet(s, later[0]);
      NothingStartsAfterACleanDrain(Next(s, later[0]), later[1..]);
    }
  }

  // ---- the registry

  /** Every racing attempt is the one registered under its key. */
  predicate Registered(s: Poller) {
    forall a :: 0 <= a < |s.attempts| && s.attempts[a].progress.Racing? ==>
      s.attempts[a].Key() in s.registry && s.registry[s.attempts[a].Key()] == a
  }

  /** The event returns a run that already has a registered attempt here. */
  predicate ClaimsActiveRun(s: Poller, e: Event) {
    e.ClaimReturned? && IsClaiming(s, e.p) && AttemptKey(s.config.tenants[s.polls[e.p].phase.at], e.run) in s.registry
  }

  lemma StartAttemptRegisters(s: Poller, p: nat, run: string)
    requires Inv(s) && Registered(s) && IsClaiming(s, p)
    ensures var tenant := s.config.tenants[s.polls[p].phase.at];
            Registered(StartAttempt(s, p, tenant, run)) <==> AttemptKey(tenant, run) !in s.registry
  {
    var tenant := s.config.tenants[s.polls[p].phase.at];
    var next := StartAttempt(s, p, tenant, run);
    NewAttemptInv(tenant, run);
    if AttemptKey(tenant, run) in s.registry {
      var a := s.registry[AttemptKey(tenant, run)];
      assert next.attempts[a] == s.attempts[a] && next.registry[AttemptKey(tenant, run)] == |s.attempts|;
      assert !Registered(next);
    }
  }

  /**
   The registry is exactly the set of racing attempts for as long as no claim returns a run that is
   already active here, and stops being so at the first claim that does.
   */
  lemma RegistryBreaksExactlyOnDuplicates(s: Poller, e: Event)
    requires Inv(s) && Registered(s)
    ensures Registered(Next(s, e)) <==> !ClaimsActiveRun(s, e)
  {
    match e
    case ClaimReturned(p, run) => ReturnedClaimRegisters(s, p, run);
    case AttemptMoves(a, move) =>
      if IsAttempt(s, a) {
        MovedKeeps(s.attempts[a], move); ReplacingKeepsRegistered(s, a, Moved(s.attempts[a], move));
      }
    case RaceSettles(a, rejected) =>
      if IsAttempt(s, a) && s.attempts[a].progress.Racing? { SettlingKeepsRegistered(s, a, rejected); }
    case FinallyRuns(a) => FinallyKeepsRegistered(s, a);
    case DrainTimerFires => if s.drainTimer { TimingOutKeepsRegistered(s); }
    case _ => OtherEventsKeepRegistered(s, e);
  }

  lemma ReturnedClaimRegisters(s: Poller, p: nat, run: string)
    requires Inv(s) && Registered(s)
    ensures Registered(Next(s, ClaimReturned(p, run))) <==> !ClaimsActiveRun(s, ClaimReturned(p, run))
  {
    if IsClaiming(s, p) {
      StartAttemptRegisters(s, p, run);
      AdvanceFrame(StartAttempt(s, p, s.config.tenants[s.polls[p].phase.at], run), p, s.polls[p].phase.at);
    }
  }

  lemma FinallyKeepsRegistered(s: Poller, a: nat)
    requires Registered(s)
    ensures Registered(Next(s, FinallyRuns(a)))
  {
    if IsAttempt(s, a) && s.attempts[a].progress.Caught? {
      ReplacingKeepsRegistered(s, a, s.attempts[a].(progress := Done(s.attempts[a].progress.rejected)));
    }
  }

  lemma OtherEventsKeepRegistered(s: Poller, e: Event)
    requires Registered(s)
    requires e.PollCalled? || e.PollTimerFires? || e.ClaimRejected? || e.ClaimEmpty? || e.Gathered? || e.StopCalled?
    ensures Registered(Next(s, e))
  {
    match e
    case PollCalled => StartPollFrame(s, false);
    case PollTimerFires => StartPollFrame(s, true);
    case ClaimRejected(p) => if IsClaiming(s, p) { ClaimFailedFrame(s, p, s.polls[p].phase.at); }
    case ClaimEmpty(p) => if IsClaiming(s, p) { ClaimFailedFrame(s, p, s.polls[p].phase.at + 1); }
    case _ =>
  }

  ghost predicate NeverClaimsActiveRun(s: Poller, events: seq<Event>)
    decreases events
  {
    events == [] || (!ClaimsActiveRun(s, events[0]) && NeverClaimsActiveRun(Next(s, events[0]), events[1..]))
  }

  lemma {:induction false} RegistryStaysExact(s: Poller, events: seq<Event>)
    requires Inv(s) && Registered(s) && NeverClaimsActiveRun(s, events)
    ensures Registered(Run(s, events))
    decreases events
  {
    if events != [] {
      RegistryBreaksExactlyOnDuplicates(s, events[0]);
      NextKeepsInv(s, events[0]);
      RegistryStaysExact(Next(s, events[0]), events[1..]);
    }
  }

  lemma ReplacingKeepsRegistered(s: Poller, a: nat, attempt: Attempt)
    requires Registered(s) && IsAttempt(s, a)
    requires attempt.tenant == s.attempts[a].tenant && attempt.run == s.attempts[a].run
    requires attempt.progress.Racing? ==> s.attempts[a].progress.Racing?
    ensures Registered(Put(s, a, attempt))
  {
  }

  lemma SettlingKeepsRegistered(s: Poller, a: nat, rejected: bool)
    requires Registered(s) && IsAttempt(s, a) && s.attempts[a].progress.Racing?
    ensures Registered(OnRaceSettled(s, a, rejected))
  {
    var next := OnRaceSettled(s, a, rejected);
    forall b | 0 <= b < |next.attempts| && next.attempts[b].progress.Racing?
      ensures next.attempts[b].Key() in next.registry && next.registry[next.attempts[b].Key()] == b
    {
      assert next.attempts[b] == s.attempts[b];
    }
  }

  lemma TimingOutKeepsRegistered(s: Poller)
    requires Inv(s) && Registered(s) && s.drainTimer
    ensures Registered(OnDrainTimer(s))
  {
    DrainTimerKeeps(s);
    forall a | 0 <= a < |s.attempts|
      ensures TimeOut(s.attempts[a]).Key() == s.attempts[a].Key()
              && TimeOut(s.attempts[a]).progress == s.attempts[a].progress {
    }
    var next := OnDrainTimer(s);
    forall a | 0 <= a < |next.attempts| && next.attempts[a].progress.Racing?
      ensures next.attempts[a].Key() in s.registry && s.registry[next.attempts[a].Key()] == a
    {
      assert next.attempts[a] == s.attempts[a] || next.attempts[a] == TimeOut(s.attempts[a]);
    }
  }

  /** The first colon of a key is the one behind its tenant. */
  lemma TenantEndsAtTheFirstColon(tenant: Tenant, run: string)
    requires ':' !in tenant
    ensures var key := AttemptKey(tenant, run); key[|tenant|] == ':' && forall i :: 0 <= i < |tenant| ==> key[i] != ':'
  {
    assert forall i :: 0 <= i < |tenant| ==> AttemptKey(tenant, run)[i] == tenant[i];
  }

  /** The key of an attempt determines its tenant and run, because a tenant is a UUID and holds no colon. */
  lemma AttemptKeyIsInjective(t1: Tenant, r1: string, t2: Tenant, r2: string)
    requires ':' !in t1 && ':' !in t2
    requires AttemptKey(t1, r1) == AttemptKey(t2, r2)
    ensures t1 == t2 && r1 == r2
  {
    var key := AttemptKey(t1, r1);
    TenantEndsAtTheFirstColon(t1, r1);
    TenantEndsAtTheFirstColon(t2, r2);
    assert t1 == key[..|t1|] && t2 == key[..|t2|];
    assert r1 == key[|t1| + 1..] && r2 == key[|t2| + 1..];
  }

  // ---- the timeout

  /** What the timeout makes of one attempt. */
  predicate TimeoutEffect(before: Attempt, after: Attempt) {
    if before.progress.Racing? then
      && after.timedOut && after.settled && after.reports == 1
      && after.aborts == (if before.settled then before.aborts else [DrainTimeout])
    else after == before
  }

  lemma EveryRacingAttemptTimesOut(attempts: seq<Attempt>, registry: map<string, nat>, a: nat)
    requires RegistryShape(attempts, registry) && Attempts(attempts, registry, false) && a < |attempts|
    requires attempts[a].progress.Racing? ==> attempts[a].Key() in registry && registry[attempts[a].Key()] == a
    ensures TimeoutEffect(attempts[a], TimeOutRegistered(attempts, registry)[a])
  {
    if attempts[a].progress.Racing? {
      assert registry[attempts[a].Key()] in registry.Values;
      TimedOutInv(attempts[a]);
    } else if a in registry.Values {
      RegisteredIsRacing(attempts, registry, a);
    }
  }

  lemma DrainTimerMarksRegistered(s: Poller)
    requires s.drainTimer && !Drained(s)
    ensures Next(s, DrainTimerFires).attempts == TimeOutRegistered(s.attempts, s.registry)
  {
  }

  /**
   At the timeout every racing attempt is marked and reported, and aborted with the drain's reason
   unless it had settled; nobody else is touched.
   */
  lemma TimeoutReachesEveryRacingAttempt(s: Poller)
    requires Inv(s) && Registered(s) && s.drainTimer
    ensures |Next(s, DrainTimerFires).attempts| == |s.attempts|
    ensures forall a :: 0 <= a < |s.attempts| ==> TimeoutEffect(s.attempts[a], Next(s, DrainTimerFires).attempts[a])
  {
    DrainTimerKeeps(s);
    DrainTimerMarksRegistered(s);
    forall a | 0 <= a < |s.attempts|
      ensures TimeoutEffect(s.attempts[a], TimeOutRegistered(s.attempts, s.registry)[a]) {
      EveryRacingAttemptTimesOut(s.attempts, s.registry, a);
    }
  }

  /** A claim that returns a task only after the timeout starts an attempt that is timed out already. */
  lemma LateClaimsAreTimedOut(s: Poller, p: nat, run: string)
    requires Inv(s) && s.timeoutReason && IsClaiming(s, p)
    ensures var next := Next(s, ClaimReturned(p, run));
            && |next.attempts| == |s.attempts| + 1
            && var late := next.attempts[|s.attempts|];
               late.timedOut && late.settled && late.aborts == [DrainTimeout] && late.reports == 1
  {
    NewAttemptInv(s.config.tenants[s.polls[p].phase.at], run);
    AdvanceFrame(StartAttempt(s, p, s.config.tenants[s.polls[p].phase.at], run), p, s.polls[p].phase.at);
  }

  /**
   A timed-out attempt is reported once in all, whatever its task does later; any other attempt is
   reported once if its task rejected and never otherwise.
   */
  lemma {:induction false} EachAttemptIsReportedOnce(config: Config, events: seq<Event>, a: nat)
    requires IsAttempt(Run(Start(config), events), a)
    ensures var attempt := Run(Start(config), events).attempts[a];
            && attempt.reports <= 1
            && (attempt.timedOut ==> attempt.reports == 1 && attempt.settled)
            && (attempt.progress.Done? ==> (attempt.reports == 1 <==> attempt.timedOut || attempt.progress.rejected))
  {
    ReachableInv(config, events);
    assert AttemptInv(Run(Start(config), events).attempts[a]);
  }

  // ---- the heartbeat

  /** At most one heartbeat at a time, none armed once settled, and at most one abort. */
  lemma {:induction false} HeartbeatChain(config: Config, events: seq<Event>, a: nat)
    requires IsAttempt(Run(Start(config), events), a)
    ensures var attempt := Run(Start(config), events).attempts[a];
            && |attempt.timers| + attempt.reading + attempt.renewing <= 1
            && (!attempt.settled ==> |attempt.timers| + attempt.reading + attempt.renewing == 1)
            && (attempt.settled ==> attempt.timers == {})
            && |attempt.aborts| <= 1
  {
    ReachableInv(config, events);
    assert AttemptInv(Run(Start(config), events).attempts[a]);
  }

  /** The renewals an attempt issues over a sequence of its moves. */
  function RenewalsIssued(a: Attempt, moves: seq<Move>): nat
    decreases moves
  {
    if moves == [] then 0
    else (if moves[0].BeatReadsHeld? && a.reading > 0 then 1 else 0) + RenewalsIssued(Moved(a, moves[0]), moves[1..])
  }

  /** Once settled, an attempt issues at most the one renewal of a heartbeat that was already reading. */
  lemma {:induction false} AtMostOneRenewalAfterSettling(a: Attempt, moves: seq<Move>)
    requires AttemptInv(a) && a.settled
    ensures RenewalsIssued(a, moves) <= a.reading <= 1
    decreases moves
  {
    if moves != [] {
      MovedKeeps(a, moves[0]);
      AtMostOneRenewalAfterSettling(Moved(a, moves[0]), moves[1..]);
    }
  }
}
