/**
 One claimed task's attempt inside the poller, as it is written: the closure variables its heartbeat,
 its race and its drain abort change between awaits. Each method makes the step of the state machine.
 */
module WorkerAttempts {
  import opened DurableTasks
  import opened Options
  import Fleet
  import PollerModel

  /** What the heartbeat makes of the row it reads. */
  function ReadMove(current: Option<Row>, worker: Worker, now: Time): PollerModel.Move {
    match current
    case None => PollerModel.BeatFails(false)
    case Some(row) =>
      if row.state == Stopped then PollerModel.BeatReadsStopped
      else if (row.state != Running && !row.Parked()) || row.owner != Some(worker) then PollerModel.BeatFails(false)
      else if row.expiresAt.None? || row.expiresAt.value <= now then PollerModel.BeatFails(false)
      else PollerModel.BeatReadsHeld
  }

  /** What it makes of the answer to its renewal; `None` is a renewal that threw. */
  function RenewMove(renewed: Option<Row>, worker: Worker, now: Time): PollerModel.Move {
    if renewed.Some? && renewed.value.owner == Some(worker) && renewed.value.expiresAt.Some?
       && renewed.value.expiresAt.value > now
    then PollerModel.BeatRenewed else PollerModel.BeatFails(true)
  }

  class ClaimedAttempt {
    const tenant: PollerModel.Tenant
    const run: string
    var settled: bool
    var timedOut: bool
    var heartbeatTimer: Option<nat>
    var armedTimers: set<nat>
    var scheduled: nat
    var reading: nat
    var renewing: nat
    var aborts: seq<PollerModel.Reason>
    var reports: nat
    var progress: PollerModel.Progress

    ghost function Current(): PollerModel.Attempt
      reads this
    {
      PollerModel.Attempt(tenant, run, progress, settled, timedOut, aborts, reports, armedTimers, heartbeatTimer,
                          scheduled, reading, renewing)
    }

    /** The synchronous head of `processClaimedTask`: the first heartbeat timer is armed. */
    constructor (tenant: PollerModel.Tenant, run: string)
      ensures Current() == PollerModel.FreshAttempt(tenant, run)
    {
      this.tenant, this.run := tenant, run;
      settled, timedOut, aborts, reports, progress := false, false, [], 0, PollerModel.Racing;
      reading, renewing := 0, 0;
      heartbeatTimer, armedTimers, scheduled := Some(0), {0}, 1;
      assert {} + {0} == {0};
    }

    method ScheduleHeartbeat()
      modifies this
      ensures Current() == PollerModel.ArmTimer(old(Current()))
    {
      armedTimers := armedTimers + {scheduled};
      heartbeatTimer := Some(scheduled);
      scheduled := scheduled + 1;
    }

    method StopHeartbeat()
      modifies this
      ensures Current() == PollerModel.StopHeartbeat(old(Current()))
    {
      settled := true;
      if heartbeatTimer.Some? {
        armedTimers := armedTimers - {heartbeatTimer.value};
        heartbeatTimer := None;
      }
    }

    method FailLease(reason: PollerModel.Reason)
      modifies this
      ensures Current() == PollerModel.FailLease(old(Current()), reason)
      ensures settled && aborts == old(aborts) + if old(settled) then [] else [reason]
    {
      if settled {
        return;
      }
      StopHeartbeat();
      aborts := aborts + [reason];
    }

    /** The timer's handler, up to the heartbeat's first await. */
    method OnHeartbeatTimer(timer: nat)
      requires timer in armedTimers
      modifies this
      ensures Current() == PollerModel.Moved(old(Current()), PollerModel.BeatFires(timer))
      ensures armedTimers == old(armedTimers) - {timer} && settled == old(settled) && aborts == old(aborts)
      ensures reading == old(reading) + if settled || aborts != [] then 0 else 1
    {
      armedTimers := armedTimers - {timer};
      if settled || aborts != [] {
        return;
      }
      reading := reading + 1;
    }

    /** The heartbeat's read returns, or throws; `presented` is the version its renewal is sent with. */
    method OnTaskRead(current: Option<Row>, threw: bool, worker: Worker, now: Time) returns (presented: Option<nat>)
      requires reading > 0
      modifies this
      ensures var move := if threw then PollerModel.BeatFails(false) else ReadMove(current, worker, now);
              Current() == PollerModel.Moved(old(Current()), move)
      ensures presented ==
                if !threw && ReadMove(current, worker, now).BeatReadsHeld? then Some(current.value.version) else None
      ensures reading == old(reading) - 1
      ensures var held := !threw && current.Some? && current.value.LeaseHeld(worker, now);
              var stopped := !threw && current.Some? && current.value.state == Stopped;
              && renewing == old(renewing) + (if held then 1 else 0)
              && settled == (old(settled) || !held)
              && aborts == old(aborts) + if held || stopped || old(settled) then [] else [PollerModel.LeaseLost]
    {
      presented := None;
      reading := reading - 1;
      if !threw && current.Some? && current.value.state == Stopped {
        StopHeartbeat();
        return;
      }
      var parked := current.Some? && (current.value.state == Waiting || current.value.state == AwaitingHuman);
      if threw || current.None? || (current.value.state != Running && !parked) || current.value.owner != Some(worker) {
        FailLease(PollerModel.LeaseLost);
        return;
      }
      if current.value.expiresAt.None? || current.value.expiresAt.value <= now {
        FailLease(PollerModel.LeaseLost);
        return;
      }
      renewing := renewing + 1;
      presented := Some(current.value.version);
    }

    /** The renewal's answer arrives; the next heartbeat is scheduled unless the attempt has settled. */
    method OnRenewed(renewed: Option<Row>, worker: Worker, now: Time)
      requires renewing > 0
      modifies this
      ensures Current() == PollerModel.Moved(old(Current()), RenewMove(renewed, worker, now))
      ensures renewing == old(renewing) - 1
      ensures var granted := renewed.Some? && renewed.value.owner == Some(worker) && renewed.value.expiresAt.Some?
                             && renewed.value.expiresAt.value > now;
              && settled == (old(settled) || !granted)
              && aborts == old(aborts) + (if granted || old(settled) then [] else [PollerModel.LeaseLost])
              && (granted ==> armedTimers == old(armedTimers) + if settled then {} else {old(scheduled)})
              && (granted && !settled ==> heartbeatTimer == Some(old(scheduled)))
    {
      renewing := renewing - 1;
      if renewed.None? || renewed.value.owner != Some(worker) || renewed.value.expiresAt.None?
         || renewed.value.expiresAt.value <= now {
        FailLease(PollerModel.LeaseLost);
        return;
      }
      if !settled {
        ScheduleHeartbeat();
      }
    }

    /** The race is over, and the heartbeat with it. */
    method OnRaceOver(rejected: bool)
      modifies this
      ensures Current() == PollerModel.StopHeartbeat(old(Current())).(progress := PollerModel.Detached(rejected))
      ensures settled && aborts == old(aborts) && heartbeatTimer.None?
      ensures armedTimers == old(armedTimers)
                             - if old(heartbeatTimer).Some? then {old(heartbeatTimer).value} else {}
    {
      StopHeartbeat();
      progress := PollerModel.Detached(rejected);
    }

    method OnDone()
      requires progress.Caught?
      modifies `progress
      ensures Current() == old(Current()).(progress := PollerModel.Done(old(progress).rejected))
    {
      progress := PollerModel.Done(progress.rejected);
    }

    /** A rejection is reported unless the drain timeout already was. */
    method OnCatch()
      requires progress.Detached?
      modifies this
      ensures Current() == PollerModel.Moved(old(Current()), PollerModel.CatchRuns)
      ensures progress == PollerModel.Caught(old(progress).rejected)
      ensures reports == old(reports) + if old(progress).rejected && !timedOut then 1 else 0
    {
      if progress.rejected && !timedOut {
        reports := reports + 1;
      }
      progress := PollerModel.Caught(progress.rejected);
    }

    /** The drain timeout: marks, reports and aborts. */
    method OnDrainTimeout()
      modifies this
      ensures Current() == PollerModel.TimeOut(old(Current()))
      ensures timedOut && settled && reports == old(reports) + 1
      ensures aborts == old(aborts) + if old(settled) then [] else [PollerModel.DrainTimeout]
    {
      timedOut := true;
      reports := reports + 1;
      FailLease(PollerModel.DrainTimeout);
    }
  }

  /**
   The heartbeat of the poller and the one of the fleet are the same: on any row, the one goes on to
   renew exactly when the other does, and it aborts an unsettled attempt exactly when the other does.
   */
  lemma ReadsAgree(a: PollerModel.Attempt, b: Fleet.Attempt, row: Row, now: Time)
    requires a.reading > 0 && b.beat.Reading? && a.settled == b.settled && (a.aborts != []) == b.aborted
    ensures var moved := PollerModel.Moved(a, ReadMove(Some(row), b.worker, now));
            var after := Fleet.AfterBeatRead(b, row, now);
            && (moved.renewing == a.renewing + 1 <==> after.beat == Fleet.Renewing(row))
            && (moved.aborts != []) == after.aborted && moved.settled == after.settled
  {
  }

  /** What the poller hears of a renewal the fleet lands: the renewed row, or nothing if it is refused or lost. */
  function Heard(b: Fleet.Attempt, row: Row, act: Fleet.Act): Option<Row>
    requires act.RenewLands? && b.beat.Renewing?
  {
    var result := Outcome(row, Fleet.WriteOf(b, act).value);
    if result.Written? && act.answered then Some(result.row) else None
  }

  /** And of any renewal the answer re-arms the one exactly when it re-arms the other, and aborts alike. */
  lemma RenewalsAgree(a: PollerModel.Attempt, b: Fleet.Attempt, row: Row, act: Fleet.Act)
    requires act.RenewLands? && b.beat.Renewing? && a.renewing > 0
    requires a.settled == b.settled && (a.aborts != []) == b.aborted && (a.settled ==> a.timers == {})
    requires a.timers == {}
    ensures var moved := PollerModel.Moved(a, RenewMove(Heard(b, row, act), b.worker, act.later));
            var after := Fleet.AfterRenewal(b, row, act);
            && (moved.timers != {} <==> after.beat.Armed?)
            && (moved.aborts != []) == after.aborted && moved.settled == after.settled
  {
    var result := Outcome(row, Fleet.WriteOf(b, act).value);
    assert result.Written? ==> result.row.owner == Some(b.worker) && result.row.expiresAt.Some?;
    assert a.armed in a.timers + {a.armed};
  }

  /** The poller's attempt and the fleet's are at the same point of the heartbeat, and alike settled and aborted. */
  predicate Alike(a: PollerModel.Attempt, b: Fleet.Attempt) {
    && a.settled == b.settled && (a.aborts != []) == b.aborted && (a.aborts != [] ==> a.settled)
    && (if b.beat.Armed? then a.handle.Some? && a.timers == {a.handle.value} else a.timers == {})
    && (b.beat.Armed? ==> !b.settled)
    && a.reading == (if b.beat.Reading? then 1 else 0)
    && a.renewing == (if b.beat.Renewing? then 1 else 0)
  }

  /**
   What the poller's attempt makes of an act of the fleet's that finds the row; only the heartbeat and the race's
   end concern it.
   */
  function Echoed(a: PollerModel.Attempt, b: Fleet.Attempt, row: Row, act: Fleet.Act): PollerModel.Attempt {
    match act
    case BeatFires =>
      if b.beat.Armed? && a.handle.Some? then PollerModel.Moved(a, PollerModel.BeatFires(a.handle.value)) else a
    case BeatReads(now) => PollerModel.Moved(a, ReadMove(Some(row), b.worker, now))
    case BeatFails => PollerModel.Moved(a, PollerModel.BeatFails(b.beat.Renewing?))
    case RenewLands(_, _, _, later, _) =>
      if b.beat.Renewing? then PollerModel.Moved(a, RenewMove(Heard(b, row, act), b.worker, later)) else a
    case Settles => if b.phase.Ended? || b.aborted then PollerModel.StopHeartbeat(a) else a
    case DrainAborts => PollerModel.TimeOut(a)
    case _ => a
  }

  lemma AwaitKeepsAlike(a: PollerModel.Attempt, b: Fleet.Attempt, row: Row, act: Fleet.Act)
    requires Alike(a, b) && (act.BeatReads? || act.RenewLands?)
    ensures Alike(Echoed(a, b, row, act), Fleet.After(b, row, act))
  {
    if act.BeatReads? && b.beat.Reading? {
      ReadsAgree(a, b, row, act.now);
    } else if act.RenewLands? && b.beat.Renewing? {
      RenewalsAgree(a, b, row, act);
    }
  }

  lemma ActKeepsAlike(a: PollerModel.Attempt, b: Fleet.Attempt, row: Row, act: Fleet.Act)
    requires Alike(a, b)
    ensures Alike(Echoed(a, b, row, act), Fleet.After(b, row, act))
  {
    if act.BeatReads? || act.RenewLands? {
      AwaitKeepsAlike(a, b, row, act);
    }
  }

  /** The fleet's attempt, and the poller's beside it, after acts that each find some row. */
  function BothAfter(a: PollerModel.Attempt, b: Fleet.Attempt, acts: seq<(Row, Fleet.Act)>)
    : (PollerModel.Attempt, Fleet.Attempt)
    decreases acts
  {
    if acts == [] then (a, b)
    else BothAfter(Echoed(a, b, acts[0].0, acts[0].1), Fleet.After(b, acts[0].0, acts[0].1), acts[1..])
  }

  lemma {:induction false} ActsKeepAlike(a: PollerModel.Attempt, b: Fleet.Attempt, acts: seq<(Row, Fleet.Act)>)
    requires Alike(a, b)
    ensures var (x, y) := BothAfter(a, b, acts); Alike(x, y)
    decreases acts
  {
    if acts != [] {
      var (row, act) := acts[0];
      ActKeepsAlike(a, b, row, act);
      ActsKeepAlike(Echoed(a, b, row, act), Fleet.After(b, row, act), acts[1..]);
    }
  }

  /** A claim starts both at the same point. */
  lemma ClaimStartsAlike(world: Fleet.World, claim: Fleet.Step)
    requires claim.Claims? && claim.key in world.rows && world.rows[claim.key].Claimable(claim.dbNow)
    ensures |Fleet.Next(world, claim).attempts| == |world.attempts| + 1
    ensures Alike(PollerModel.FreshAttempt(claim.key.tenant, claim.key.run),
                  Fleet.Next(world, claim).attempts[|world.attempts|])
  {
    assert {} + {0} == {0};
  }

  /**
   The two models of one attempt never part: from a successful claim, through any acts on any rows, they are at the
   same point of the heartbeat, and have settled and aborted alike. What is proved of the one chain holds of the other.
   */
  lemma {:induction false} HeartbeatsStayAlike(world: Fleet.World, claim: Fleet.Step, acts: seq<(Row, Fleet.Act)>)
    requires claim.Claims? && claim.key in world.rows && world.rows[claim.key].Claimable(claim.dbNow)
    ensures |Fleet.Next(world, claim).attempts| == |world.attempts| + 1
    ensures var claimed := Fleet.Next(world, claim).attempts[|world.attempts|];
            var (x, y) := BothAfter(PollerModel.FreshAttempt(claim.key.tenant, claim.key.run), claimed, acts);
            Alike(x, y)
  {
    ClaimStartsAlike(world, claim);
    ActsKeepAlike(PollerModel.FreshAttempt(claim.key.tenant, claim.key.run),
                  Fleet.Next(world, claim).attempts[|world.attempts|], acts);
  }
}
