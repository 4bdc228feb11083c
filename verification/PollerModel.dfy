/**
 The poller of one worker process as a state machine: overlapping polls share a per-tenant ledger,
 every claimed task runs as an attempt with a heartbeat, and a drain races a timer against a waiter.
 Code between two awaits is one event.
 */
module PollerModel {
  import opened Options
  import opened Sums

  type Tenant = string

  /** `admitted` stands for the readiness gate, a tenant list and a registry that are not empty. */
  datatype Config = Config(tenants: seq<Tenant>, cap: nat, admitted: bool, autoStart: bool)

  datatype Reason = LeaseLost | DrainTimeout

  /** How far the task of an attempt has got: racing, removed from the registry, caught, or off the ledger. */
  datatype Progress = Racing | Detached(rejected: bool) | Caught(rejected: bool) | Done(rejected: bool)

  /**
   One attempt. `timers` are the heartbeat timers still armed and `handle` the one its variable names;
   `reading` and `renewing` are heartbeats waiting for a read or for a renewal.
   */
  datatype Attempt = Attempt(tenant: Tenant, run: string, progress: Progress, settled: bool, timedOut: bool,
                             aborts: seq<Reason>, reports: nat,
                             timers: set<nat>, handle: Option<nat>, armed: nat, reading: nat, renewing: nat)
  {
    function Key(): string { AttemptKey(tenant, run) }
  }

  function AttemptKey(tenant: Tenant, run: string): string { tenant + ":" + run }

  /** A poll waits for a claim for the tenant at an index, or for its tasks, or has returned. */
  datatype PollPhase = Claiming(at: nat) | Gathering | Returned

  datatype Poll = Poll(phase: PollPhase, timed: bool, attempts: seq<nat>)

  datatype StopState = NotStopped | Draining | Resolved(timedOut: bool, inFlight: int)

  datatype Poller = Poller(config: Config, inFlight: map<Tenant, int>, activePolls: int, accepting: bool,
                           running: bool, pollTimer: bool, waiter: bool, drainTimer: bool, timeoutReason: bool,
                           stop: StopState, resolutions: nat,
                           polls: seq<Poll>, attempts: seq<Attempt>, registry: map<string, nat>)

  /** What an attempt does that touches nothing but itself. */
  datatype Move =
    | CatchRuns
    | BeatFires(timer: nat)
    | BeatReadsStopped
    | BeatReadsHeld
    | BeatFails(whileRenewing: bool)
    | BeatRenewed

  datatype Event =
    | PollCalled
    | PollTimerFires
    | ClaimRejected(p: nat)
    | ClaimEmpty(p: nat)
    | ClaimReturned(p: nat, run: string)
    | RaceSettles(a: nat, rejected: bool)
    | AttemptMoves(a: nat, move: Move)
    | FinallyRuns(a: nat)
    | Gathered(p: nat)
    | StopCalled(validTimeout: bool)
    | DrainTimerFires

  function Start(config: Config): Poller {
    var running := config.autoStart && config.admitted;
    Poller(config, map[], 0, true, running, running, false, false, false, NotStopped, 0, [], [], map[])
  }

  // ---- the ledger

  function Count(ledger: map<Tenant, int>, tenant: Tenant): int {
    if tenant in ledger then ledger[tenant] else 0
  }

  function Increment(ledger: map<Tenant, int>, tenant: Tenant): map<Tenant, int> {
    ledger[tenant := Count(ledger, tenant) + 1]
  }

  /** Decrements with the code's default of one for a missing entry, and drops an entry that reaches zero. */
  function Decrement(ledger: map<Tenant, int>, tenant: Tenant): map<Tenant, int> {
    var next := (if tenant in ledger then ledger[tenant] else 1) - 1;
    if next > 0 then ledger[tenant := next] else ledger - {tenant}
  }

  ghost predicate Drained(s: Poller) { s.activePolls == 0 && Total(s.inFlight) == 0 }

  // ---- the drain

  function Finish(s: Poller, timedOut: bool, inFlight: int): Poller {
    s.(drainTimer := false, waiter := false, stop := Resolved(timedOut, inFlight), resolutions := s.resolutions + 1)
  }

  ghost function Notify(s: Poller): Poller {
    if s.waiter && Drained(s) then Finish(s.(waiter := false), false, 0) else s
  }

  ghost function DecrementInFlight(s: Poller, tenant: Tenant): Poller {
    Notify(s.(inFlight := Decrement(s.inFlight, tenant)))
  }

  // ---- attempts

  /** Settles the attempt and cancels the timer its handle names. */
  function StopHeartbeat(a: Attempt): Attempt {
    a.(settled := true, timers := if a.handle.Some? then a.timers - {a.handle.value} else a.timers, handle := None)
  }

  /** Aborts with a reason, unless the attempt has settled. */
  function FailLease(a: Attempt, reason: Reason): Attempt {
    if a.settled then a else StopHeartbeat(a).(aborts := a.aborts + [reason])
  }

  function ArmTimer(a: Attempt): Attempt {
    a.(timers := a.timers + {a.armed}, handle := Some(a.armed), armed := a.armed + 1)
  }

  function FreshAttempt(tenant: Tenant, run: string): Attempt {
    ArmTimer(Attempt(tenant, run, Racing, false, false, [], 0, {}, None, 0, 0, 0))
  }

  /** A move that is not due changes nothing. */
  function Moved(a: Attempt, move: Move): Attempt {
    match move
    case CatchRuns =>
      if !a.progress.Detached? then a
      else
        a.(progress := Caught(a.progress.rejected),
           reports := a.reports + if a.progress.rejected && !a.timedOut then 1 else 0)
    case BeatFires(timer) =>
      if timer !in a.timers then a
      else
        var fired := a.(timers := a.timers - {timer});
        if fired.settled || fired.aborts != [] then fired else fired.(reading := fired.reading + 1)
    case BeatReadsStopped => if a.reading == 0 then a else StopHeartbeat(a.(reading := a.reading - 1))
    case BeatReadsHeld => if a.reading == 0 then a else a.(reading := a.reading - 1, renewing := a.renewing + 1)
    case BeatFails(whileRenewing) =>
      if whileRenewing then
        if a.renewing == 0 then a else FailLease(a.(renewing := a.renewing - 1), LeaseLost)
      else
        if a.reading == 0 then a else FailLease(a.(reading := a.reading - 1), LeaseLost)
    case BeatRenewed =>
      if a.renewing == 0 then a
      else
        var renewed := a.(renewing := a.renewing - 1);
        if renewed.settled then renewed else ArmTimer(renewed)
  }

  /** Marks, reports and aborts. */
  function TimeOut(a: Attempt): Attempt {
    FailLease(a.(timedOut := true, reports := a.reports + 1), DrainTimeout)
  }

  /** The drain timeout reaches every registered attempt. */
  function TimeOutRegistered(attempts: seq<Attempt>, registry: map<string, nat>): seq<Attempt> {
    seq(|attempts|, i requires 0 <= i < |attempts| =>
      if i in registry.Values then TimeOut(attempts[i]) else attempts[i])
  }

  // ---- polls

  /** The claim loop from a tenant's index up to the next claim it sends, or to its end. */
  function Advance(s: Poller, p: nat, at: nat): Poller
    requires p < |s.polls|
    decreases |s.config.tenants| - at
  {
    if at >= |s.config.tenants| then s.(polls := s.polls[p := s.polls[p].(phase := Gathering)])
    else if !s.accepting || Count(s.inFlight, s.config.tenants[at]) >= s.config.cap then Advance(s, p, at + 1)
    else
      s.(inFlight := Increment(s.inFlight, s.config.tenants[at]),
         polls := s.polls[p := s.polls[p].(phase := Claiming(at))])
  }

  /** A poll that is not admitted returns at once. */
  ghost function RefusePoll(s: Poller, timed: bool, pollTimer: bool): Poller {
    Notify(s.(polls := s.polls + [Poll(Returned, timed, [])], pollTimer := pollTimer))
  }

  function CountPoll(s: Poller, timed: bool, pollTimer: bool): Poller {
    s.(activePolls := s.activePolls + 1, polls := s.polls + [Poll(Gathering, timed, [])], pollTimer := pollTimer)
  }

  /** An admitted poll is counted and runs its claim loop. */
  function AdmitPoll(s: Poller, timed: bool, pollTimer: bool): Poller {
    Advance(CountPoll(s, timed, pollTimer), |s.polls|, 0)
  }

  /** The synchronous head of a poll. A timed poll has used up its timer, and re-arms it if it returns at once. */
  ghost function StartPoll(s: Poller, timed: bool): Poller {
    if !s.accepting || !s.config.admitted then RefusePoll(s, timed, if timed then s.running else s.pollTimer)
    else AdmitPoll(s, timed, if timed then false else s.pollTimer)
  }

  /** A claimed task starts its attempt; past the drain timeout it is timed out on the spot. */
  function StartAttempt(s: Poller, p: nat, tenant: Tenant, run: string): Poller
    requires p < |s.polls|
  {
    var started := FreshAttempt(tenant, run);
    s.(attempts := s.attempts + [if s.timeoutReason then TimeOut(started) else started],
       registry := s.registry[started.Key() := |s.attempts|],
       polls := s.polls[p := s.polls[p].(phase := Gathering, attempts := s.polls[p].attempts + [|s.attempts|])])
  }

  predicate IsClaiming(s: Poller, p: nat) {
    p < |s.polls| && s.polls[p].phase.Claiming? && s.polls[p].phase.at < |s.config.tenants|
  }

  predicate IsAttempt(s: Poller, a: nat) { a < |s.attempts| }

  function Put(s: Poller, a: nat, attempt: Attempt): Poller
    requires a < |s.attempts|
  {
    s.(attempts := s.attempts[a := attempt])
  }

  /** A claim that failed, or found nothing, gives its reservation back; the loop goes on from an index. */
  ghost function OnClaimFailed(s: Poller, p: nat, from: nat): Poller
    requires IsClaiming(s, p)
  {
    Advance(DecrementInFlight(s.(polls := s.polls[p := s.polls[p].(phase := Gathering)]),
                              s.config.tenants[s.polls[p].phase.at]),
            p, from)
  }

  function OnClaimReturned(s: Poller, p: nat, run: string): Poller
    requires IsClaiming(s, p)
  {
    Advance(StartAttempt(s, p, s.config.tenants[s.polls[p].phase.at], run), p, s.polls[p].phase.at)
  }

  function OnRaceSettled(s: Poller, a: nat, rejected: bool): Poller
    requires IsAttempt(s, a)
  {
    Put(s, a, StopHeartbeat(s.attempts[a]).(progress := Detached(rejected)))
      .(registry := s.registry - {s.attempts[a].Key()})
  }

  ghost function OnFinally(s: Poller, a: nat): Poller
    requires IsAttempt(s, a) && s.attempts[a].progress.Caught?
  {
    DecrementInFlight(Put(s, a, s.attempts[a].(progress := Done(s.attempts[a].progress.rejected))),
                      s.attempts[a].tenant)
  }

  predicate AllDone(s: Poller, p: nat)
    requires p < |s.polls|
  {
    forall i :: 0 <= i < |s.polls[p].attempts| ==>
      s.polls[p].attempts[i] < |s.attempts| && s.attempts[s.polls[p].attempts[i]].progress.Done?
  }

  /** A poll whose tasks are all done returns, and a timed one arms the next. */
  ghost function OnGathered(s: Poller, p: nat): Poller
    requires p < |s.polls|
  {
    Notify(s.(polls := s.polls[p := s.polls[p].(phase := Returned)], activePolls := s.activePolls - 1,
              pollTimer := s.pollTimer || (s.polls[p].timed && s.running)))
  }

  /** A stopped poller is finished at once if it is drained; otherwise a waiter and a timer race. */
  ghost function DrainOrWait(s: Poller): Poller {
    if Drained(s) then Finish(s, false, 0) else s.(waiter := true, drainTimer := true, stop := Draining)
  }

  /** A second stop gets the first one's promise, and an invalid timeout is refused; neither changes anything. */
  ghost function OnStop(s: Poller, validTimeout: bool): Poller {
    if s.stop != NotStopped || !validTimeout then s
    else DrainOrWait(s.(accepting := false, running := false, pollTimer := false))
  }

  function MarkAll(s: Poller): Poller {
    s.(timeoutReason := true, attempts := TimeOutRegistered(s.attempts, s.registry))
  }

  ghost function OnDrainTimer(s: Poller): Poller {
    if Drained(s) then Finish(s, false, 0) else Finish(MarkAll(s), true, Total(s.inFlight))
  }

  /** One event; an event that is not due changes nothing. */
  ghost function Next(s: Poller, e: Event): Poller {
    match e
    case PollCalled => StartPoll(s, false)
    case PollTimerFires => if s.pollTimer then StartPoll(s, true) else s
    case ClaimRejected(p) => if IsClaiming(s, p) then OnClaimFailed(s, p, s.polls[p].phase.at) else s
    case ClaimEmpty(p) => if IsClaiming(s, p) then OnClaimFailed(s, p, s.polls[p].phase.at + 1) else s
    case ClaimReturned(p, run) => if IsClaiming(s, p) then OnClaimReturned(s, p, run) else s
    case RaceSettles(a, rejected) =>
      if IsAttempt(s, a) && s.attempts[a].progress.Racing? then OnRaceSettled(s, a, rejected) else s
    case AttemptMoves(a, move) => if IsAttempt(s, a) then Put(s, a, Moved(s.attempts[a], move)) else s
    case FinallyRuns(a) => if IsAttempt(s, a) && s.attempts[a].progress.Caught? then OnFinally(s, a) else s
    case Gathered(p) => if p < |s.polls| && s.polls[p].phase.Gathering? && AllDone(s, p) then OnGathered(s, p) else s
    case StopCalled(validTimeout) => OnStop(s, validTimeout)
    case DrainTimerFires => if s.drainTimer then OnDrainTimer(s) else s
  }

  ghost function Run(s: Poller, events: seq<Event>): Poller
    decreases events
  {
    if events == [] then s else Run(Next(s, events[0]), events[1..])
  }
}
