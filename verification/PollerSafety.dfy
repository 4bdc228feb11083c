/** What every run of the poller keeps, whatever the claims return and however polls overlap. */
module PollerSafety {
  import opened Options
  import opened Sums
  import opened PollerModel

  type Counts = map<Tenant, int>

  // ---- the ledger against what it stands for

  function ClaimsFor(config: Config, tenant: Tenant): Poll -> nat {
    (poll: Poll) =>
      if poll.phase.Claiming? && poll.phase.at < |config.tenants| && config.tenants[poll.phase.at] == tenant then 1
      else 0
  }

  function UnfinishedFor(tenant: Tenant): Attempt -> nat {
    (attempt: Attempt) => if !attempt.progress.Done? && attempt.tenant == tenant then 1 else 0
  }

  const PENDING_CLAIM: Poll -> nat := (poll: Poll) => if poll.phase.Claiming? then 1 else 0
  const UNFINISHED: Attempt -> nat := (attempt: Attempt) => if attempt.progress.Done? then 0 else 1
  const ACTIVE: Poll -> nat := (poll: Poll) => if poll.phase.Returned? then 0 else 1
  const TIMED: Poll -> nat := (poll: Poll) => if poll.timed && !poll.phase.Returned? then 1 else 0

  /** A tenant's pending claims plus its unfinished attempts. */
  function Owed(config: Config, polls: seq<Poll>, attempts: seq<Attempt>, tenant: Tenant): nat {
    Sum(polls, ClaimsFor(config, tenant)) + Sum(attempts, UnfinishedFor(tenant))
  }

  function OwedInAll(polls: seq<Poll>, attempts: seq<Attempt>): nat {
    Sum(polls, PENDING_CLAIM) + Sum(attempts, UNFINISHED)
  }

  ghost predicate Ledger(config: Config, counts: Counts, polls: seq<Poll>, attempts: seq<Attempt>) {
    && (forall t: Tenant :: Count(counts, t) == Owed(config, polls, attempts, t) <= config.cap)
    && (forall t :: t in counts ==> counts[t] > 0)
    && Total(counts) == OwedInAll(polls, attempts)
  }

  /** Claims are for configured tenants, active polls are counted, and timed polls never overlap. */
  predicate PollShape(config: Config, polls: seq<Poll>, activePolls: int, pollTimer: bool) {
    && (forall p :: 0 <= p < |polls| && polls[p].phase.Claiming? ==> polls[p].phase.at < |config.tenants|)
    && activePolls == Sum(polls, ACTIVE)
    && (if pollTimer then 1 else 0) + Sum(polls, TIMED) <= 1
  }

  predicate RegistryShape(attempts: seq<Attempt>, registry: map<string, nat>) {
    forall k :: k in registry ==>
      registry[k] < |attempts| && attempts[registry[k]].progress.Racing? && attempts[registry[k]].Key() == k
  }

  /** One attempt: at most one heartbeat at a time, none armed once settled, one abort, one report. */
  predicate AttemptInv(a: Attempt) {
    && |a.timers| + a.reading + a.renewing <= 1
    && (!a.settled ==> |a.timers| + a.reading + a.renewing == 1)
    && (a.settled ==> a.timers == {})
    && (a.timers != {} ==> a.handle.Some? && a.timers == {a.handle.value})
    && |a.aborts| <= 1
    && (a.aborts != [] ==> a.settled)
    && (!a.progress.Racing? ==> a.settled)
    && (a.timedOut ==> a.settled && a.reports == 1)
    && (!a.timedOut && (a.progress.Racing? || a.progress.Detached?) ==> a.reports == 0)
    && (!a.timedOut && (a.progress.Caught? || a.progress.Done?) ==> a.reports == if a.progress.rejected then 1 else 0)
  }

  /** Every attempt on its own, and the timeout: before it nobody is marked, after it every registered attempt is. */
  predicate Attempts(attempts: seq<Attempt>, registry: map<string, nat>, timeoutReason: bool) {
    && (forall a :: 0 <= a < |attempts| ==> AttemptInv(attempts[a]))
    && (timeoutReason ==> forall k :: k in registry && registry[k] < |attempts| ==> attempts[registry[k]].timedOut)
    && (!timeoutReason ==> forall a :: 0 <= a < |attempts| ==> !attempts[a].timedOut)
  }

  /** The drain, but for the wake-up that `Notify` may still owe. */
  ghost predicate DrainShape(s: Poller) {
    && (s.running ==> s.accepting)
    && (s.pollTimer ==> s.running)
    && (s.waiter <==> s.stop.Draining?)
    && (s.drainTimer <==> s.stop.Draining?)
    && (s.stop.NotStopped? <==> s.accepting)
    && s.resolutions == (if s.stop.Resolved? then 1 else 0)
    && (s.stop.Resolved? && !s.stop.timedOut ==> Drained(s) && s.stop.inFlight == 0)
    && (s.timeoutReason <==> s.stop.Resolved? && s.stop.timedOut)
  }

  ghost predicate AllButWakeUp(s: Poller) {
    && PollShape(s.config, s.polls, s.activePolls, s.pollTimer)
    && Ledger(s.config, s.inFlight, s.polls, s.attempts)
    && RegistryShape(s.attempts, s.registry)
    && Attempts(s.attempts, s.registry, s.timeoutReason)
    && DrainShape(s)
  }

  /** The whole invariant: the drain never sleeps on a drained poller. */
  ghost predicate Inv(s: Poller) {
    AllButWakeUp(s) && (s.stop.Draining? ==> !Drained(s))
  }

  lemma StartInv(config: Config)
    ensures Inv(Start(config))
  {
  }

  lemma NotifyKeeps(s: Poller)
    requires AllButWakeUp(s)
    ensures Inv(Notify(s))
  {
  }

  // ---- the ledger's moves

  lemma {:induction false} IncrementTotal(counts: Counts, tenant: Tenant)
    ensures Total(Increment(counts, tenant)) == Total(counts) + 1
    ensures forall t :: Count(Increment(counts, tenant), t) == Count(counts, t) + if t == tenant then 1 else 0
  {
    TotalSet(counts, tenant, Count(counts, tenant) + 1);
  }

  lemma {:induction false} DecrementTotal(counts: Counts, tenant: Tenant)
    requires tenant in counts && counts[tenant] > 0
    ensures Total(Decrement(counts, tenant)) == Total(counts) - 1
    ensures forall t :: Count(Decrement(counts, tenant), t) == Count(counts, t) - if t == tenant then 1 else 0
  {
    TotalSet(counts, tenant, counts[tenant] - 1);
    TotalRemove(counts, tenant);
  }

  /** One poll changes, and the counts follow its claim. */
  lemma {:induction false} LedgerSetPoll(config: Config, counts: Counts, polls: seq<Poll>, attempts: seq<Attempt>,
                                         p: nat, poll: Poll, next: Counts)
    requires Ledger(config, counts, polls, attempts) && p < |polls|
    requires forall t ::
              Count(next, t) == Count(counts, t) - ClaimsFor(config, t)(polls[p]) + ClaimsFor(config, t)(poll)
    requires forall t :: Count(next, t) <= config.cap
    requires forall t :: t in next ==> next[t] > 0
    requires Total(next) == Total(counts) - PENDING_CLAIM(polls[p]) + PENDING_CLAIM(poll)
    ensures Ledger(config, next, polls[p := poll], attempts)
  {
    forall t ensures Count(next, t) == Owed(config, polls[p := poll], attempts, t) {
      SumUpdate(polls, p, poll, ClaimsFor(config, t));
      assert Count(counts, t) == Owed(config, polls, attempts, t);
    }
    SumUpdate(polls, p, poll, PENDING_CLAIM);
  }

  /** One attempt changes, and the counts follow. */
  lemma {:induction false} LedgerSetAttempt(config: Config, counts: Counts, polls: seq<Poll>, attempts: seq<Attempt>,
                                            a: nat, attempt: Attempt, next: Counts)
    requires Ledger(config, counts, polls, attempts) && a < |attempts|
    requires forall t :: Count(next, t) == Count(counts, t) - UnfinishedFor(t)(attempts[a]) + UnfinishedFor(t)(attempt)
    requires forall t :: Count(next, t) <= config.cap
    requires forall t :: t in next ==> next[t] > 0
    requires Total(next) == Total(counts) - UNFINISHED(attempts[a]) + UNFINISHED(attempt)
    ensures Ledger(config, next, polls, attempts[a := attempt])
  {
    forall t ensures Count(next, t) == Owed(config, polls, attempts[a := attempt], t) {
      SumUpdate(attempts, a, attempt, UnfinishedFor(t));
      assert Count(counts, t) == Owed(config, polls, attempts, t);
    }
    SumUpdate(attempts, a, attempt, UNFINISHED);
  }

  lemma LedgerAddPoll(config: Config, counts: Counts, polls: seq<Poll>, attempts: seq<Attempt>, poll: Poll)
    requires Ledger(config, counts, polls, attempts) && !poll.phase.Claiming?
    ensures Ledger(config, counts, polls + [poll], attempts)
  {
    forall t ensures Count(counts, t) == Owed(config, polls + [poll], attempts, t) <= config.cap {
      SumAppend(polls, poll, ClaimsFor(config, t));
      assert Count(counts, t) == Owed(config, polls, attempts, t);
    }
    SumAppend(polls, poll, PENDING_CLAIM);
  }

  /** A claimed task takes its claim's place. */
  lemma LedgerStartsAttempt(config: Config, counts: Counts, polls: seq<Poll>, attempts: seq<Attempt>, p: nat,
                            poll: Poll, attempt: Attempt)
    requires Ledger(config, counts, polls, attempts) && p < |polls|
    requires polls[p].phase.Claiming? && polls[p].phase.at < |config.tenants| && !poll.phase.Claiming?
    requires attempt.tenant == config.tenants[polls[p].phase.at] && !attempt.progress.Done?
    ensures Ledger(config, counts, polls[p := poll], attempts + [attempt])
  {
    forall t ensures Count(counts, t) == Owed(config, polls[p := poll], attempts + [attempt], t) <= config.cap {
      SumUpdate(polls, p, poll, ClaimsFor(config, t));
      SumAppend(attempts, attempt, UnfinishedFor(t));
      assert Count(counts, t) == Owed(config, polls, attempts, t);
    }
    SumUpdate(polls, p, poll, PENDING_CLAIM);
    SumAppend(attempts, attempt, UNFINISHED);
  }

  lemma LedgerSameWeights(config: Config, counts: Counts, polls: seq<Poll>, attempts: seq<Attempt>, next: seq<Attempt>)
    requires Ledger(config, counts, polls, attempts) && |next| == |attempts|
    requires forall i :: 0 <= i < |attempts| ==>
               next[i].progress == attempts[i].progress && next[i].tenant == attempts[i].tenant
    ensures Ledger(config, counts, polls, next)
  {
    forall t ensures Count(counts, t) == Owed(config, polls, next, t) <= config.cap {
      SumSame(attempts, next, UnfinishedFor(t));
      assert Count(counts, t) == Owed(config, polls, attempts, t);
    }
    SumSame(attempts, next, UNFINISHED);
  }

  /** A pending claim has its entry on the ledger. */
  lemma ClaimIsCounted(config: Config, counts: Counts, polls: seq<Poll>, attempts: seq<Attempt>, p: nat)
    requires Ledger(config, counts, polls, attempts)
    requires p < |polls| && polls[p].phase.Claiming? && polls[p].phase.at < |config.tenants|
    ensures config.tenants[polls[p].phase.at] in counts && counts[config.tenants[polls[p].phase.at]] > 0
  {
    var tenant := config.tenants[polls[p].phase.at];
    SumUpdate(polls, p, polls[p], ClaimsFor(config, tenant));
    assert Count(counts, tenant) == Owed(config, polls, attempts, tenant);
  }

  /** An unfinished attempt has its entry on the ledger. */
  lemma AttemptIsCounted(config: Config, counts: Counts, polls: seq<Poll>, attempts: seq<Attempt>, a: nat)
    requires Ledger(config, counts, polls, attempts) && a < |attempts| && !attempts[a].progress.Done?
    ensures attempts[a].tenant in counts && counts[attempts[a].tenant] > 0
  {
    SumUpdate(attempts, a, attempts[a], UnfinishedFor(attempts[a].tenant));
    assert Count(counts, attempts[a].tenant) == Owed(config, polls, attempts, attempts[a].tenant);
  }

  // ---- the polls

  lemma PollShapeSet(config: Config, polls: seq<Poll>, active: int, pollTimer: bool, p: nat, poll: Poll,
                     nextTimer: bool)
    requires PollShape(config, polls, active, pollTimer) && p < |polls|
    requires poll.phase.Claiming? ==> poll.phase.at < |config.tenants|
    requires (if nextTimer then 1 else 0) + TIMED(poll) <= (if pollTimer then 1 else 0) + TIMED(polls[p])
    ensures PollShape(config, polls[p := poll], active - ACTIVE(polls[p]) + ACTIVE(poll), nextTimer)
  {
    SumUpdate(polls, p, poll, ACTIVE);
    SumUpdate(polls, p, poll, TIMED);
  }

  lemma PollShapeAdd(config: Config, polls: seq<Poll>, active: int, pollTimer: bool, poll: Poll, nextTimer: bool)
    requires PollShape(config, polls, active, pollTimer) && !poll.phase.Claiming?
    requires (if nextTimer then 1 else 0) + TIMED(poll) <= (if pollTimer then 1 else 0)
    ensures PollShape(config, polls + [poll], active + ACTIVE(poll), nextTimer)
  {
    SumAppend(polls, poll, ACTIVE);
    SumAppend(polls, poll, TIMED);
  }

  /** While a poll is active, the poller is not drained. */
  lemma ActivePoll(config: Config, polls: seq<Poll>, active: int, pollTimer: bool, p: nat)
    requires PollShape(config, polls, active, pollTimer) && p < |polls| && !polls[p].phase.Returned?
    ensures active > 0
  {
    SumUpdate(polls, p, polls[p], ACTIVE);
  }

  lemma ReserveKeeps(config: Config, counts: Counts, polls: seq<Poll>, attempts: seq<Attempt>, active: int,
                     pollTimer: bool, p: nat, at: nat)
    requires p < |polls| && polls[p].phase.Gathering? && at < |config.tenants|
    requires PollShape(config, polls, active, pollTimer) && Ledger(config, counts, polls, attempts)
    requires Count(counts, config.tenants[at]) < config.cap
    ensures PollShape(config, polls[p := polls[p].(phase := Claiming(at))], active, pollTimer)
    ensures Ledger(config, Increment(counts, config.tenants[at]), polls[p := polls[p].(phase := Claiming(at))],
                   attempts)
  {
    IncrementTotal(counts, config.tenants[at]);
    assert forall t :: Count(counts, t) <= config.cap;
    LedgerSetPoll(config, counts, polls, attempts, p, polls[p].(phase := Claiming(at)),
                  Increment(counts, config.tenants[at]));
    PollShapeSet(config, polls, active, pollTimer, p, polls[p].(phase := Claiming(at)), pollTimer);
  }

  /** The claim loop keeps the ledger and its cap, and touches nothing but one poll and the ledger. */
  lemma {:induction false} AdvanceKeeps(s: Poller, p: nat, at: nat)
    requires p < |s.polls| && s.polls[p].phase.Gathering?
    requires PollShape(s.config, s.polls, s.activePolls, s.pollTimer)
             && Ledger(s.config, s.inFlight, s.polls, s.attempts)
    ensures var next := Advance(s, p, at);
            && PollShape(s.config, next.polls, s.activePolls, s.pollTimer)
               && Ledger(s.config, next.inFlight, next.polls, s.attempts)
            && next == s.(inFlight := next.inFlight, polls := next.polls)
            && |next.polls| == |s.polls| && !next.polls[p].phase.Returned?
    decreases |s.config.tenants| - at
  {
    if at >= |s.config.tenants| {
      assert s.polls[p := s.polls[p].(phase := Gathering)] == s.polls;
    } else if !s.accepting || Count(s.inFlight, s.config.tenants[at]) >= s.config.cap {
      AdvanceKeeps(s, p, at + 1);
    } else {
      ReserveKeeps(s.config, s.inFlight, s.polls, s.attempts, s.activePolls, s.pollTimer, p, at);
    }
  }

  lemma {:induction false} AdvanceKeepsInv(s: Poller, p: nat, at: nat)
    requires AllButWakeUp(s) && p < |s.polls| && s.polls[p].phase.Gathering?
    ensures Inv(Advance(s, p, at))
  {
    ActivePoll(s.config, s.polls, s.activePolls, s.pollTimer, p);
    AdvanceKeeps(s, p, at);
  }

  lemma PollReturnsAtOnce(s: Poller, timed: bool, pollTimer: bool)
    requires Inv(s) && (pollTimer ==> s.running)
    requires (if pollTimer then 1 else 0) <= (if s.pollTimer then 1 else 0)
    ensures Inv(RefusePoll(s, timed, pollTimer))
  {
    var poll := Poll(Returned, timed, []);
    LedgerAddPoll(s.config, s.inFlight, s.polls, s.attempts, poll);
    PollShapeAdd(s.config, s.polls, s.activePolls, s.pollTimer, poll, pollTimer);
  }

  lemma PollIsCounted(s: Poller, timed: bool, pollTimer: bool)
    requires Inv(s) && (timed ==> s.pollTimer) && pollTimer == (s.pollTimer && !timed) && s.accepting
    ensures AllButWakeUp(CountPoll(s, timed, pollTimer))
  {
    var poll := Poll(Gathering, timed, []);
    LedgerAddPoll(s.config, s.inFlight, s.polls, s.attempts, poll);
    PollShapeAdd(s.config, s.polls, s.activePolls, s.pollTimer, poll, pollTimer);
  }

  lemma PollStarts(s: Poller, timed: bool, pollTimer: bool)
    requires AllButWakeUp(CountPoll(s, timed, pollTimer))
    ensures Inv(AdmitPoll(s, timed, pollTimer))
  {
    AdvanceKeepsInv(CountPoll(s, timed, pollTimer), |s.polls|, 0);
  }

  lemma StartPollKeeps(s: Poller, timed: bool)
    requires Inv(s) && (timed ==> s.pollTimer)
    ensures Inv(StartPoll(s, timed))
  {
    if !s.accepting || !s.config.admitted {
      PollReturnsAtOnce(s, timed, if timed then s.running else s.pollTimer);
    } else {
      PollIsCounted(s, timed, if timed then false else s.pollTimer);
      PollStarts(s, timed, if timed then false else s.pollTimer);
    }
  }

  lemma ClaimGivesBack(s: Poller, p: nat, counts: Counts)
    requires Inv(s) && IsClaiming(s, p) && counts == Decrement(s.inFlight, s.config.tenants[s.polls[p].phase.at])
    ensures AllButWakeUp(s.(polls := s.polls[p := s.polls[p].(phase := Gathering)], inFlight := counts))
    ensures s.activePolls > 0
  {
    var poll := s.polls[p].(phase := Gathering);
    ClaimIsCounted(s.config, s.inFlight, s.polls, s.attempts, p);
    DecrementTotal(s.inFlight, s.config.tenants[s.polls[p].phase.at]);
    assert forall t :: Count(s.inFlight, t) <= s.config.cap;
    LedgerSetPoll(s.config, s.inFlight, s.polls, s.attempts, p, poll, counts);
    PollShapeSet(s.config, s.polls, s.activePolls, s.pollTimer, p, poll, s.pollTimer);
    ActivePoll(s.config, s.polls, s.activePolls, s.pollTimer, p);
  }

  /** A claim that fails or finds nothing gives its reservation back. */
  lemma ClaimFails(s: Poller, p: nat, from: nat)
    requires Inv(s) && IsClaiming(s, p)
    ensures Inv(OnClaimFailed(s, p, from))
  {
    var counts := Decrement(s.inFlight, s.config.tenants[s.polls[p].phase.at]);
    ClaimGivesBack(s, p, counts);
    AdvanceKeepsInv(s.(polls := s.polls[p := s.polls[p].(phase := Gathering)], inFlight := counts), p, from);
  }

  // ---- the attempts

  lemma NewAttemptInv(tenant: Tenant, run: string)
    ensures AttemptInv(FreshAttempt(tenant, run)) && AttemptInv(TimeOut(FreshAttempt(tenant, run)))
    ensures TimeOut(FreshAttempt(tenant, run)).progress.Racing? && TimeOut(FreshAttempt(tenant, run)).timedOut
    ensures TimeOut(FreshAttempt(tenant, run)).tenant == tenant && TimeOut(FreshAttempt(tenant, run)).run == run
    ensures TimeOut(FreshAttempt(tenant, run)).aborts == [DrainTimeout]
            && TimeOut(FreshAttempt(tenant, run)).reports == 1
  {
  }

  lemma AttemptAdded(attempts: seq<Attempt>, registry: map<string, nat>, timeoutReason: bool, attempt: Attempt)
    requires RegistryShape(attempts, registry) && Attempts(attempts, registry, timeoutReason)
    requires AttemptInv(attempt) && attempt.progress.Racing? && attempt.timedOut == timeoutReason
    ensures RegistryShape(attempts + [attempt], registry[attempt.Key() := |attempts|])
    ensures Attempts(attempts + [attempt], registry[attempt.Key() := |attempts|], timeoutReason)
  {
  }

  lemma ClaimReturns(s: Poller, p: nat, run: string)
    requires Inv(s) && IsClaiming(s, p)
    ensures Inv(OnClaimReturned(s, p, run))
  {
    var tenant := s.config.tenants[s.polls[p].phase.at];
    var attempt := if s.timeoutReason then TimeOut(FreshAttempt(tenant, run)) else FreshAttempt(tenant, run);
    var poll := s.polls[p].(phase := Gathering, attempts := s.polls[p].attempts + [|s.attempts|]);
    NewAttemptInv(tenant, run);
    AttemptAdded(s.attempts, s.registry, s.timeoutReason, attempt);
    LedgerStartsAttempt(s.config, s.inFlight, s.polls, s.attempts, p, poll, attempt);
    PollShapeSet(s.config, s.polls, s.activePolls, s.pollTimer, p, poll, s.pollTimer);
    AdvanceKeepsInv(StartAttempt(s, p, tenant, run), p, s.polls[p].phase.at);
  }

  lemma MovedKeeps(a: Attempt, move: Move)
    requires AttemptInv(a)
    ensures AttemptInv(Moved(a, move))
    ensures Moved(a, move).tenant == a.tenant && Moved(a, move).run == a.run && Moved(a, move).timedOut == a.timedOut
    ensures Moved(a, move).progress.Racing? == a.progress.Racing? && Moved(a, move).progress.Done? == a.progress.Done?
    ensures Moved(a, move).settled || !a.settled
  {
  }

  lemma AttemptReplaced(attempts: seq<Attempt>, registry: map<string, nat>, timeoutReason: bool,
                        a: nat, attempt: Attempt, next: map<string, nat>)
    requires RegistryShape(attempts, registry) && Attempts(attempts, registry, timeoutReason)
    requires a < |attempts| && AttemptInv(attempt) && attempt.timedOut == attempts[a].timedOut
    requires attempt.tenant == attempts[a].tenant && attempt.run == attempts[a].run
    requires attempt.Key() !in next || (attempts[a].progress.Racing? ==> attempt.progress.Racing?)
    requires next == registry || next == registry - {attempt.Key()}
    ensures RegistryShape(attempts[a := attempt], next) && Attempts(attempts[a := attempt], next, timeoutReason)
  {
  }

  lemma AttemptMovesKeep(s: Poller, a: nat, move: Move)
    requires Inv(s) && IsAttempt(s, a)
    ensures Inv(Put(s, a, Moved(s.attempts[a], move)))
  {
    var attempt := Moved(s.attempts[a], move);
    MovedKeeps(s.attempts[a], move);
    AttemptReplaced(s.attempts, s.registry, s.timeoutReason, a, attempt, s.registry);
    assert forall t :: Count(s.inFlight, t) <= s.config.cap;
    LedgerSetAttempt(s.config, s.inFlight, s.polls, s.attempts, a, attempt, s.inFlight);
  }

  lemma DetachedInv(a: Attempt, rejected: bool)
    requires AttemptInv(a) && a.progress.Racing?
    ensures AttemptInv(StopHeartbeat(a).(progress := Detached(rejected)))
  {
  }

  lemma RaceSettlesKeeps(s: Poller, a: nat, rejected: bool)
    requires Inv(s) && IsAttempt(s, a) && s.attempts[a].progress.Racing?
    ensures Inv(OnRaceSettled(s, a, rejected))
  {
    var attempt := StopHeartbeat(s.attempts[a]).(progress := Detached(rejected));
    DetachedInv(s.attempts[a], rejected);
    assert attempt.Key() == s.attempts[a].Key();
    AttemptReplaced(s.attempts, s.registry, s.timeoutReason, a, attempt, s.registry - {s.attempts[a].Key()});
    assert forall t :: Count(s.inFlight, t) <= s.config.cap;
    LedgerSetAttempt(s.config, s.inFlight, s.polls, s.attempts, a, attempt, s.inFlight);
  }

  lemma DoneInv(a: Attempt)
    requires AttemptInv(a) && a.progress.Caught?
    ensures AttemptInv(a.(progress := Done(a.progress.rejected)))
  {
  }

  /** The attempt leaves the ledger, and the drain is told. */
  lemma FinallyKeeps(s: Poller, a: nat)
    requires Inv(s) && IsAttempt(s, a) && s.attempts[a].progress.Caught?
    ensures Inv(OnFinally(s, a))
  {
    var attempt := s.attempts[a].(progress := Done(s.attempts[a].progress.rejected));
    var counts := Decrement(s.inFlight, attempt.tenant);
    AttemptIsCounted(s.config, s.inFlight, s.polls, s.attempts, a);
    DecrementTotal(s.inFlight, attempt.tenant);
    TotalZero(s.inFlight);
    DoneInv(s.attempts[a]);
    AttemptReplaced(s.attempts, s.registry, s.timeoutReason, a, attempt, s.registry);
    assert forall t :: Count(s.inFlight, t) <= s.config.cap;
    LedgerSetAttempt(s.config, s.inFlight, s.polls, s.attempts, a, attempt, counts);
    NotifyKeeps(Put(s, a, attempt).(inFlight := counts));
  }

  lemma GatheredKeeps(s: Poller, p: nat)
    requires Inv(s) && p < |s.polls| && s.polls[p].phase.Gathering?
    ensures Inv(OnGathered(s, p))
  {
    var poll := s.polls[p].(phase := Returned);
    ActivePoll(s.config, s.polls, s.activePolls, s.pollTimer, p);
    PollShapeSet(s.config, s.polls, s.activePolls, s.pollTimer, p, poll,
                 s.pollTimer || (s.polls[p].timed && s.running));
    assert forall t :: Count(s.inFlight, t) <= s.config.cap;
    LedgerSetPoll(s.config, s.inFlight, s.polls, s.attempts, p, poll, s.inFlight);
    NotifyKeeps(s.(polls := s.polls[p := poll], activePolls := s.activePolls - 1,
                   pollTimer := s.pollTimer || (s.polls[p].timed && s.running)));
  }

  lemma TimedOutInv(a: Attempt)
    requires AttemptInv(a) && a.progress.Racing? && !a.timedOut
    ensures AttemptInv(TimeOut(a)) && TimeOut(a).timedOut && TimeOut(a).tenant == a.tenant && TimeOut(a).run == a.run
    ensures TimeOut(a).progress == a.progress && TimeOut(a).settled && TimeOut(a).reports == 1
    ensures TimeOut(a).aborts == if a.settled then a.aborts else [DrainTimeout]
  {
  }

  lemma RegisteredIsRacing(attempts: seq<Attempt>, registry: map<string, nat>, a: nat)
    requires RegistryShape(attempts, registry) && a in registry.Values
    ensures a < |attempts| && attempts[a].progress.Racing?
  {
    var k :| k in registry && registry[k] == a;
  }

  lemma TimeOutRegisteredKeeps(attempts: seq<Attempt>, registry: map<string, nat>)
    requires RegistryShape(attempts, registry) && Attempts(attempts, registry, false)
    ensures var next := TimeOutRegistered(attempts, registry);
            && RegistryShape(next, registry) && Attempts(next, registry, true)
            && (forall i :: 0 <= i < |attempts| ==>
                  next[i].progress == attempts[i].progress && next[i].tenant == attempts[i].tenant)
  {
    var next := TimeOutRegistered(attempts, registry);
    forall i | 0 <= i < |attempts|
      ensures AttemptInv(next[i]) && next[i].progress == attempts[i].progress && next[i].tenant == attempts[i].tenant
              && next[i].run == attempts[i].run && (i in registry.Values ==> next[i].timedOut)
    {
      if i in registry.Values {
        RegisteredIsRacing(attempts, registry, i);
        TimedOutInv(attempts[i]);
      }
    }
    forall k | k in registry ensures registry[k] in registry.Values {
    }
  }

  /** In every reachable state the drain timer finds the poller undrained. */
  lemma DrainTimerKeeps(s: Poller)
    requires Inv(s) && s.drainTimer
    ensures !Drained(s) && !s.timeoutReason
    ensures Inv(OnDrainTimer(s))
  {
    TimeOutRegisteredKeeps(s.attempts, s.registry);
    LedgerSameWeights(s.config, s.inFlight, s.polls, s.attempts, TimeOutRegistered(s.attempts, s.registry));
  }

  lemma StopKeeps(s: Poller)
    requires Inv(s)
    ensures Inv(OnStop(s, true))
  {
  }

  // ---- each event

  lemma PollEventKeepsInv(s: Poller, e: Event)
    requires Inv(s) && (e.PollCalled? || e.PollTimerFires? || e.Gathered?)
    ensures Inv(Next(s, e))
  {
    match e
    case PollCalled => StartPollKeeps(s, false);
    case PollTimerFires => if s.pollTimer { StartPollKeeps(s, true); }
    case Gathered(p) => if p < |s.polls| && s.polls[p].phase.Gathering? { GatheredKeeps(s, p); }
  }

  lemma ClaimRejectedKeepsInv(s: Poller, p: nat)
    requires Inv(s)
    ensures Inv(Next(s, ClaimRejected(p)))
  {
    if IsClaiming(s, p) { ClaimFails(s, p, s.polls[p].phase.at); }
  }

  lemma ClaimEmptyKeepsInv(s: Poller, p: nat)
    requires Inv(s)
    ensures Inv(Next(s, ClaimEmpty(p)))
  {
    if IsClaiming(s, p) { ClaimFails(s, p, s.polls[p].phase.at + 1); }
  }

  lemma ClaimReturnedKeepsInv(s: Poller, p: nat, run: string)
    requires Inv(s)
    ensures Inv(Next(s, ClaimReturned(p, run)))
  {
    if IsClaiming(s, p) { ClaimReturns(s, p, run); }
  }

  lemma RaceEventKeepsInv(s: Poller, a: nat, rejected: bool)
    requires Inv(s)
    ensures Inv(Next(s, RaceSettles(a, rejected)))
  {
    if IsAttempt(s, a) && s.attempts[a].progress.Racing? { RaceSettlesKeeps(s, a, rejected); }
  }

  lemma FinallyEventKeepsInv(s: Poller, a: nat)
    requires Inv(s)
    ensures Inv(Next(s, FinallyRuns(a)))
  {
    if IsAttempt(s, a) && s.attempts[a].progress.Caught? { FinallyKeeps(s, a); }
  }

  lemma NextKeepsInv(s: Poller, e: Event)
    requires Inv(s)
    ensures Inv(Next(s, e))
  {
    match e
    case PollCalled => PollEventKeepsInv(s, e);
    case PollTimerFires => PollEventKeepsInv(s, e);
    case Gathered(_) => PollEventKeepsInv(s, e);
    case ClaimRejected(p) => ClaimRejectedKeepsInv(s, p);
    case ClaimEmpty(p) => ClaimEmptyKeepsInv(s, p);
    case ClaimReturned(p, run) => ClaimReturnedKeepsInv(s, p, run);
    case RaceSettles(a, rejected) => RaceEventKeepsInv(s, a, rejected);
    case AttemptMoves(a, move) => if IsAttempt(s, a) { AttemptMovesKeep(s, a, move); }
    case FinallyRuns(a) => FinallyEventKeepsInv(s, a);
    case StopCalled(_) => StopKeeps(s);
    case DrainTimerFires => if s.drainTimer { DrainTimerKeeps(s); }
  }

  lemma {:induction false} RunKeepsInv(s: Poller, events: seq<Event>)
    requires Inv(s)
    ensures Inv(Run(s, events))
    decreases events
  {
    if events != [] {
      NextKeepsInv(s, events[0]);
      RunKeepsInv(Next(s, events[0]), events[1..]);
    }
  }
}
