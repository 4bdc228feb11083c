/**
 The poller as it is written: closure variables and attempt objects changed between awaits. Each method
 is the code from one await to the next, and is proved to make exactly the step of the state machine, so
 everything proved of all runs of the machine from `Start`, its invariant included, holds of all runs of
 these methods from the constructor.
 */
module WorkerPolling {
  import opened DurableTasks
  import opened Options
  import opened Sums
  import opened PollerModel
  import opened PollerSafety
  import opened WorkerAttempts

  /** The attempts the objects hold. */
  ghost function Values(objects: seq<ClaimedAttempt>): (values: seq<Attempt>)
    reads objects
    ensures |values| == |objects| && forall i :: 0 <= i < |objects| ==> values[i] == objects[i].Current()
  {
    seq(|objects|, i requires 0 <= i < |objects| reads objects => objects[i].Current())
  }

  predicate Distinct(objects: seq<ClaimedAttempt>) {
    forall i, j :: 0 <= i < j < |objects| ==> objects[i] != objects[j]
  }

  /** The attempts once every registered one has been timed out, except those whose entries are left. */
  ghost function Told(values: seq<Attempt>, slots: map<string, nat>, left: set<string>): seq<Attempt> {
    var told := set k | k in slots && k !in left :: slots[k];
    seq(|values|, i requires 0 <= i < |values| => if i in told then TimeOut(values[i]) else values[i])
  }

  lemma NobodyTold(values: seq<Attempt>, slots: map<string, nat>)
    ensures Told(values, slots, slots.Keys) == values
  {
  }

  /** No two entries hold the same attempt, since an attempt is registered under its own key only. */
  lemma OneMoreTold(values: seq<Attempt>, slots: map<string, nat>, left: set<string>, key: string)
    requires RegistryShape(values, slots) && left <= slots.Keys && key in left && slots[key] < |values|
    ensures var so := Told(values, slots, left);
           Told(values, slots, left - {key}) == so[slots[key] := TimeOut(so[slots[key]])]
  {
    assert forall k :: k in slots && slots[k] == slots[key] ==> k == key;
    assert (set k | k in slots && k !in left - {key} :: slots[k])
           == (set k | k in slots && k !in left :: slots[k]) + {slots[key]};
  }

  lemma EveryoneTold(values: seq<Attempt>, slots: map<string, nat>)
    ensures Told(values, slots, {}) == TimeOutRegistered(values, slots)
  {
    assert (set k | k in slots && k !in {} :: slots[k]) == slots.Values;
  }

  class WorkerPoller {
    const config: Config
    var inFlightByTenant: map<Tenant, int>
    var activePollCount: int
    var acceptingClaims: bool
    var running: bool
    var pollTimer: bool
    var drainWaiter: bool
    var drainTimer: bool
    var drainTimeoutReason: bool
    var stopState: StopState
    var activeAttempts: map<string, ClaimedAttempt>
    var polls: seq<Poll>
    var attempts: seq<ClaimedAttempt>
    ghost var slots: map<string, nat>
    ghost var values: seq<Attempt>
    ghost var resolutions: nat

    /** The registry holds the very objects that the attempts' promises captured, each at its slot. */
    ghost predicate Registered()
      reads `attempts, `slots, `activeAttempts
    {
      && Distinct(attempts)
      && slots.Keys == activeAttempts.Keys
      && (forall k :: k in slots ==> slots[k] < |attempts| && activeAttempts[k] == attempts[slots[k]])
    }

    /** And `values` is what the objects hold. */
    ghost predicate Valid()
      reads `attempts, `slots, `activeAttempts, `values, attempts
    {
      Registered() && values == Values(attempts)
    }

    /** One attempt object has changed and no other. */
    ghost method Refresh(a: nat)
      requires Registered() && a < |attempts| == |values|
      requires forall i :: 0 <= i < |attempts| && i != a ==> values[i] == attempts[i].Current()
      modifies `values
      ensures Valid() && values == old(values)[a := attempts[a].Current()]
    {
      values := values[a := attempts[a].Current()];
      assert values == Values(attempts);
    }

    ghost function State(): Poller
      reads this
    {
      Poller(config, inFlightByTenant, activePollCount, acceptingClaims, running, pollTimer, drainWaiter, drainTimer,
             drainTimeoutReason, stopState, resolutions, polls, values, slots)
    }

    constructor (config: Config)
      ensures Valid() && State() == Start(config)
    {
      this.config := config;
      inFlightByTenant, activePollCount, acceptingClaims := map[], 0, true;
      running, pollTimer := config.autoStart && config.admitted, config.autoStart && config.admitted;
      drainWaiter, drainTimer, drainTimeoutReason, stopState := false, false, false, NotStopped;
      activeAttempts, polls, attempts, slots, values, resolutions := map[], [], [], map[], [], 0;
      new;
      assert Values(attempts) == [];
    }

    method TotalInFlight() returns (count: int)
      ensures count == Total(inFlightByTenant)
    {
      count := 0;
      var left := inFlightByTenant;
      while left.Keys != {}
        invariant count + Total(left) == Total(inFlightByTenant)
        decreases |left|
      {
        var tenant :| tenant in left.Keys;
        TotalRemove(left, tenant);
        assert |left - {tenant}| < |left|;
        count := count + left[tenant];
        left := left - {tenant};
      }
    }

    method IsDrained() returns (drained: bool)
      ensures drained == Drained(State())
    {
      var total := TotalInFlight();
      drained := activePollCount == 0 && total == 0;
    }

    method FinishDrain(timedOut: bool, inFlight: int)
      modifies `drainTimer, `drainWaiter, `stopState, `resolutions
      ensures State() == Finish(old(State()), timedOut, inFlight)
    {
      drainTimer := false;
      drainWaiter := false;
      stopState := Resolved(timedOut, inFlight);
      resolutions := resolutions + 1;
    }

    method NotifyDrainWaiter()
      modifies `drainTimer, `drainWaiter, `stopState, `resolutions
      ensures State() == Notify(old(State()))
    {
      if drainWaiter {
        var drained := IsDrained();
        if drained {
          drainWaiter := false;
          FinishDrain(false, 0);
        }
      }
    }

    method IncrementInFlight(tenant: Tenant)
      modifies `inFlightByTenant
      ensures inFlightByTenant == Increment(old(inFlightByTenant), tenant)
    {
      var current := if tenant in inFlightByTenant then inFlightByTenant[tenant] else 0;
      inFlightByTenant := inFlightByTenant[tenant := current + 1];
    }

    method DecrementInFlight(tenant: Tenant)
      modifies `inFlightByTenant, `drainTimer, `drainWaiter, `stopState, `resolutions
      ensures State() == PollerModel.DecrementInFlight(old(State()), tenant)
    {
      var next := (if tenant in inFlightByTenant then inFlightByTenant[tenant] else 1) - 1;
      if next > 0 {
        inFlightByTenant := inFlightByTenant[tenant := next];
      } else {
        inFlightByTenant := inFlightByTenant - {tenant};
      }
      NotifyDrainWaiter();
    }

    /** The nested claim loops, up to the next claim they send or to their end. */
    method ContinueClaims(p: nat, from: nat)
      requires p < |polls|
      modifies `inFlightByTenant, `polls
      ensures State() == Advance(old(State()), p, from)
    {
      var at := from;
      while at < |config.tenants|
        invariant inFlightByTenant == old(inFlightByTenant) && polls == old(polls)
        invariant Advance(State(), p, at) == Advance(old(State()), p, from)
      {
        var tenant := config.tenants[at];
        var inFlight := if tenant in inFlightByTenant then inFlightByTenant[tenant] else 0;
        if acceptingClaims && inFlight < config.cap {
          IncrementInFlight(tenant);
          polls := polls[p := polls[p].(phase := Claiming(at))];
          return;
        }
        at := at + 1;
      }
      polls := polls[p := polls[p].(phase := Gathering)];
    }

    /** `pollOnce`, called directly or by the poll timer, up to its first await. */
    method PollOnce(timed: bool)
      requires Valid() && (timed ==> pollTimer)
      modifies this
      ensures Valid()
      ensures State() == Next(old(State()), if timed then PollTimerFires else PollCalled)
    {
      BeginPoll(timed);
    }

    method BeginPoll(timed: bool)
      modifies `inFlightByTenant, `polls, `pollTimer, `activePollCount, `drainTimer, `drainWaiter, `stopState,
        `resolutions
      ensures State() == StartPoll(old(State()), timed)
    {
      if timed {
        pollTimer := false;
      }
      if !acceptingClaims || !config.admitted {
        ReturnAtOnce(timed);
        return;
      }
      CountIn(timed);
    }

    /** An admitted poll is counted and runs its claim loops. */
    method CountIn(timed: bool)
      modifies `inFlightByTenant, `polls, `activePollCount
      ensures State() == AdmitPoll(old(State()), timed, pollTimer)
    {
      activePollCount := activePollCount + 1;
      polls := polls + [Poll(Gathering, timed, [])];
      assert State() == CountPoll(old(State()), timed, pollTimer);
      ContinueClaims(|polls| - 1, 0);
    }

    /** A poll that is not admitted is counted in and out, and wakes a waiter on its way. */
    method ReturnAtOnce(timed: bool)
      modifies `polls, `pollTimer, `activePollCount, `drainTimer, `drainWaiter, `stopState, `resolutions
      ensures State() == RefusePoll(old(State()), timed, pollTimer)
      ensures pollTimer == (old(pollTimer) || (timed && running))
    {
      activePollCount := activePollCount + 1;
      polls := polls + [Poll(Returned, timed, [])];
      activePollCount := activePollCount - 1;
      if timed && running {
        pollTimer := true;
      }
      NotifyDrainWaiter();
    }

    predicate AwaitsClaim(p: nat)
      reads this
    {
      p < |polls| && polls[p].phase.Claiming? && polls[p].phase.at < |config.tenants|
    }

    /** A claim came to nothing: its reservation is given back and the loops go on. */
    method GiveBack(p: nat, from: nat)
      requires AwaitsClaim(p)
      modifies `inFlightByTenant, `polls, `drainTimer, `drainWaiter, `stopState, `resolutions
      ensures State() == OnClaimFailed(old(State()), p, from)
    {
      var at := polls[p].phase.at;
      polls := polls[p := polls[p].(phase := Gathering)];
      DecrementInFlight(config.tenants[at]);
      ContinueClaims(p, from);
    }

    method OnClaimRejected(p: nat)
      requires Valid() && AwaitsClaim(p)
      modifies this
      ensures Valid() && State() == Next(old(State()), ClaimRejected(p))
    {
      GiveBack(p, polls[p].phase.at);
    }

    method OnClaimEmpty(p: nat)
      requires Valid() && AwaitsClaim(p)
      modifies this
      ensures Valid() && State() == Next(old(State()), ClaimEmpty(p))
    {
      GiveBack(p, polls[p].phase.at + 1);
    }

    /** The attempt's promise captures the object; the registry names it under its key. */
    method Register(base: ClaimedAttempt)
      requires Valid() && base !in attempts
      modifies `activeAttempts, `attempts, `slots, `values
      ensures Valid() && attempts == old(attempts) + [base] && values == old(values) + [base.Current()]
      ensures slots == old(slots)[base.tenant + ":" + base.run := |old(attempts)|]
    {
      var key := base.tenant + ":" + base.run;
      activeAttempts := activeAttempts[key := base];
      slots := slots[key := |attempts|];
      attempts := attempts + [base];
      values := values + [base.Current()];
      assert values == Values(attempts);
    }

    /** A claimed task starts; past the drain timeout, what the registry now holds for it is timed out. */
    method CreateAttempt(tenant: Tenant, run: string)
      requires Valid()
      modifies `activeAttempts, `attempts, `slots, `values
      ensures Valid() && slots == old(slots)[AttemptKey(tenant, run) := |old(attempts)|]
              && |attempts| == |old(attempts)| + 1
      ensures var started := FreshAttempt(tenant, run);
              values == old(values) + [if drainTimeoutReason then TimeOut(started) else started]
    {
      var base := new ClaimedAttempt(tenant, run);
      Register(base);
      if drainTimeoutReason {
        TimeOutOne(tenant + ":" + run);
      }
    }

    /** The drain timeout of what the registry holds under a key. */
    method TimeOutOne(key: string)
      requires Valid() && key in activeAttempts
      modifies activeAttempts[key], `values
      ensures Valid() && values == old(values)[slots[key] := TimeOut(old(values)[slots[key]])]
    {
      activeAttempts[key].OnDrainTimeout();
      Refresh(slots[key]);
    }

    method RegisterAttempt(p: nat, tenant: Tenant, run: string)
      requires Valid() && p < |polls|
      modifies `activeAttempts, `attempts, `slots, `values, `polls
      ensures Valid() && State() == StartAttempt(old(State()), p, tenant, run)
      ensures |polls| == |old(polls)|
    {
      CreateAttempt(tenant, run);
      polls := polls[p := polls[p].(phase := Gathering, attempts := polls[p].attempts + [|attempts| - 1])];
    }

    method OnClaimReturned(p: nat, run: string)
      requires Valid() && AwaitsClaim(p)
      modifies this
      ensures Valid() && State() == Next(old(State()), ClaimReturned(p, run))
    {
      var at := polls[p].phase.at;
      RegisterAttempt(p, config.tenants[at], run);
      ContinueClaims(p, at);
    }

    // ---- the attempts' heartbeats and ends, each on its own object

    method OnHeartbeatTimer(a: nat, timer: nat)
      requires Valid() && a < |attempts| && timer in attempts[a].armedTimers
      modifies attempts[a], `values
      ensures Valid() && State() == Next(old(State()), AttemptMoves(a, BeatFires(timer)))
      ensures attempts[a].settled ==> attempts[a].reading == old(attempts[a].reading)
    {
      attempts[a].OnHeartbeatTimer(timer);
      Refresh(a);
    }

    method OnTaskRead(a: nat, current: Option<Row>, threw: bool, worker: Worker, now: Time)
      returns (presented: Option<nat>)
      requires Valid() && a < |attempts| && attempts[a].reading > 0
      modifies attempts[a], `values
      ensures Valid()
      ensures var move := if threw then BeatFails(false) else ReadMove(current, worker, now);
              State() == Next(old(State()), AttemptMoves(a, move))
      ensures presented.Some? <==> !threw && current.Some? && current.value.LeaseHeld(worker, now)
      ensures presented.Some? ==> presented.value == current.value.version
    {
      presented := ReadOne(a, current, threw, worker, now);
    }

    method ReadOne(a: nat, current: Option<Row>, threw: bool, worker: Worker, now: Time)
      returns (presented: Option<nat>)
      requires Valid() && a < |attempts| && attempts[a].reading > 0
      modifies attempts[a], `values
      ensures Valid() && presented ==
                if !threw && ReadMove(current, worker, now).BeatReadsHeld? then Some(current.value.version) else None
      ensures var move := if threw then BeatFails(false) else ReadMove(current, worker, now);
              values == old(values)[a := Moved(old(values)[a], move)]
    {
      presented := attempts[a].OnTaskRead(current, threw, worker, now);
      Refresh(a);
    }

    method OnRenewed(a: nat, renewed: Option<Row>, worker: Worker, now: Time)
      requires Valid() && a < |attempts| && attempts[a].renewing > 0
      modifies attempts[a], `values
      ensures Valid() && State() == Next(old(State()), AttemptMoves(a, RenewMove(renewed, worker, now)))
      ensures old(attempts[a].settled) ==> attempts[a].armedTimers == old(attempts[a].armedTimers)
    {
      RenewOne(a, renewed, worker, now);
    }

    method RenewOne(a: nat, renewed: Option<Row>, worker: Worker, now: Time)
      requires Valid() && a < |attempts| && attempts[a].renewing > 0
      modifies attempts[a], `values
      ensures Valid() && values == old(values)[a := Moved(old(values)[a], RenewMove(renewed, worker, now))]
    {
      attempts[a].OnRenewed(renewed, worker, now);
      Refresh(a);
    }

    method EndRace(a: nat, rejected: bool)
      requires Valid() && a < |attempts|
      modifies attempts[a], `values
      ensures Valid() && State() == Put(old(State()), a,
                                        StopHeartbeat(old(State()).attempts[a]).(progress := Detached(rejected)))
      ensures attempts[a].settled && attempts[a].heartbeatTimer.None?
    {
      attempts[a].OnRaceOver(rejected);
      Refresh(a);
    }

    /** The `finally` of `processClaimedTask`: whatever the key names leaves the registry. */
    method SettleRace(a: nat, rejected: bool)
      requires Valid() && a < |attempts|
      modifies `activeAttempts, `slots, `values, attempts[a]
      ensures Valid() && State() == OnRaceSettled(old(State()), a, rejected)
      ensures attempts[a].settled && attempts[a].heartbeatTimer.None?
    {
      var key := attempts[a].tenant + ":" + attempts[a].run;
      assert key == values[a].Key();
      EndRace(a, rejected);
      Unregister(key);
    }

    /** The race of an attempt is over: its heartbeat stops and its entry goes. */
    method OnRaceSettles(a: nat, rejected: bool)
      requires Valid() && a < |attempts| && attempts[a].progress.Racing?
      modifies `activeAttempts, `slots, `values, attempts[a]
      ensures Valid() && State() == Next(old(State()), RaceSettles(a, rejected))
      ensures attempts[a].settled && attempts[a].heartbeatTimer.None?
    {
      SettleRace(a, rejected);
    }

    method Unregister(key: string)
      requires Valid()
      modifies `activeAttempts, `slots
      ensures Valid() && State() == old(State()).(registry := old(State()).registry - {key})
    {
      activeAttempts := activeAttempts - {key};
      slots := slots - {key};
    }

    method OnCatch(a: nat)
      requires Valid() && a < |attempts| && attempts[a].progress.Detached?
      modifies attempts[a], `values
      ensures Valid() && State() == Next(old(State()), AttemptMoves(a, CatchRuns))
      ensures attempts[a].timedOut ==> attempts[a].reports == old(attempts[a].reports)
    {
      attempts[a].OnCatch();
      Refresh(a);
    }

    method EndAttempt(a: nat)
      requires Valid() && a < |attempts| && attempts[a].progress.Caught?
      modifies attempts[a], `values
      ensures var before := old(State()).attempts[a];
              Valid() && State() == Put(old(State()), a, before.(progress := Done(before.progress.rejected)))
    {
      attempts[a].OnDone();
      Refresh(a);
    }

    /** The last handler of an attempt's promise: it leaves the ledger. */
    method OnFinally(a: nat)
      requires Valid() && a < |attempts| && attempts[a].progress.Caught?
      modifies this, attempts[a]
      ensures Valid() && State() == Next(old(State()), FinallyRuns(a))
    {
      LeaveLedger(a);
    }

    method LeaveLedger(a: nat)
      requires Valid() && a < |attempts| && attempts[a].progress.Caught?
      modifies `inFlightByTenant, `drainTimer, `drainWaiter, `stopState, `resolutions, `values, attempts[a]
      ensures Valid() && State() == PollerModel.OnFinally(old(State()), a)
    {
      EndAttempt(a);
      DecrementInFlight(attempts[a].tenant);
    }

    /** `pollOnce` returns the number of tasks it claimed once all of them are done. */
    method OnGathered(p: nat) returns (claimedCount: nat)
      requires Valid() && p < |polls| && polls[p].phase.Gathering? && AllDone(State(), p)
      modifies this
      ensures Valid() && State() == Next(old(State()), Gathered(p))
      ensures claimedCount == |old(polls[p].attempts)|
    {
      claimedCount := |polls[p].attempts|;
      ReturnFromPoll(p);
    }

    /** The `finally` of `pollOnce`, and the re-arming behind a timed one. */
    method ReturnFromPoll(p: nat)
      requires p < |polls|
      modifies `polls, `pollTimer, `activePollCount, `drainTimer, `drainWaiter, `stopState, `resolutions
      ensures State() == PollerModel.OnGathered(old(State()), p)
    {
      if polls[p].timed && running {
        pollTimer := true;
      }
      polls := polls[p := polls[p].(phase := Returned)];
      activePollCount := activePollCount - 1;
      assert State() == old(State()).(polls := polls, activePolls := activePollCount, pollTimer := pollTimer);
      NotifyDrainWaiter();
    }

    method Stop(validTimeout: bool)
      requires Valid()
      modifies this
      ensures Valid() && State() == Next(old(State()), StopCalled(validTimeout))
    {
      if stopState != NotStopped || !validTimeout {
        return;
      }
      BeginStop();
    }

    method BeginStop()
      modifies `acceptingClaims, `running, `pollTimer, `drainTimer, `drainWaiter, `stopState, `resolutions
      ensures State() == DrainOrWait(old(State()).(accepting := false, running := false, pollTimer := false))
    {
      acceptingClaims := false;
      running := false;
      pollTimer := false;
      AwaitDrain();
    }

    method AwaitDrain()
      modifies `drainTimer, `drainWaiter, `stopState, `resolutions
      ensures State() == DrainOrWait(old(State()))
    {
      var drained := IsDrained();
      if drained {
        FinishDrain(false, 0);
        return;
      }
      drainWaiter := true;
      drainTimer := true;
      stopState := Draining;
    }

    /** Of what was registered when the loop began, all but what is left has been told. */
    ghost predicate Telling(was: seq<Attempt>, registry: map<string, nat>, left: set<string>)
      reads `attempts, `slots, `activeAttempts, `values, attempts
    {
      && Valid() && slots == registry && RegistryShape(was, registry) && |was| == |attempts|
      && left <= registry.Keys && values == Told(was, registry, left)
    }

    /** One more entry of the registry, whichever it is. */
    method TellOne(ghost was: seq<Attempt>, ghost registry: map<string, nat>, left: set<string>)
      returns (rest: set<string>)
      requires Telling(was, registry, left) && left != {}
      modifies attempts, `values
      ensures Telling(was, registry, rest) && rest < left
    {
      var key :| key in left;
      OneMoreTold(was, slots, left, key);
      TimeOutOne(key);
      rest := left - {key};
    }

    /** Marks, reports and aborts every registered attempt, entry by entry in any order. */
    method TimeOutActiveAttempts()
      requires Valid() && RegistryShape(values, slots)
      modifies `values, attempts
      ensures Valid() && values == TimeOutRegistered(old(values), slots)
    {
      NobodyTold(values, slots);
      var left := activeAttempts.Keys;
      TellEveryone(values, slots, left);
      EveryoneTold(old(values), slots);
    }

    /** The loop itself, over whatever is left. */
    method TellEveryone(ghost was: seq<Attempt>, ghost registry: map<string, nat>, everyone: set<string>)
      requires Telling(was, registry, everyone)
      modifies `values, attempts
      ensures Telling(was, registry, {})
    {
      var left := everyone;
      while left != {}
        invariant Telling(was, registry, left)
        decreases left
      {
        left := TellOne(was, registry, left);
      }
    }

    /** The timeout is on record before anybody is told. */
    method TimeOutAll()
      requires Valid() && RegistryShape(values, slots)
      modifies `drainTimeoutReason, `values, attempts
      ensures Valid() && State() == MarkAll(old(State()))
    {
      drainTimeoutReason := true;
      TimeOutActiveAttempts();
    }

    /** The handler of the drain timer. */
    method HandleDrainTimer()
      requires Valid() && RegistryShape(values, slots)
      modifies this, attempts
      ensures Valid() && State() == PollerModel.OnDrainTimer(old(State()))
    {
      var drained := IsDrained();
      if drained {
        FinishDrain(false, 0);
      } else {
        GiveUpDrain();
      }
    }

    /** What remains is counted before anybody is told, and reported after. */
    method GiveUpDrain()
      requires Valid() && RegistryShape(values, slots)
      modifies `drainTimeoutReason, `drainTimer, `drainWaiter, `stopState, `resolutions, `values, attempts
      ensures Valid() && State() == Finish(MarkAll(old(State())), true, Total(inFlightByTenant))
    {
      var remaining := TotalInFlight();
      TimeOutAll();
      FinishDrain(true, remaining);
    }

    method OnDrainTimer()
      requires Valid() && drainTimer && RegistryShape(values, slots)
      modifies this, attempts
      ensures Valid() && State() == Next(old(State()), DrainTimerFires)
    {
      HandleDrainTimer();
    }
  }
}
