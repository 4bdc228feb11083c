/** What every run of the fleet keeps. */
module FleetSafety {
  import opened Options
  import opened DurableTasks
  import opened TaskAttempt
  import opened Fleet

  /** Every world a fleet can reach from any table. */
  lemma {:induction false} ReachableInv(rows: Rows, steps: seq<Step>)
    ensures Inv(Run(Start(rows), steps))
  {
    RunKeepsInv(Start(rows), steps);
  }

  predicate OvertakenByAnother(world: World, i: nat)
    requires i < |world.attempts|
  {
    var key := world.attempts[i].key;
    key in world.latest && world.latest[key] < |world.attempts|
    && world.attempts[world.latest[key]].worker != world.attempts[i].worker
  }

  /**
   Fencing. In any run, once another worker has taken a run over, nothing the first worker's attempt
   does changes any row: not its failure record, not its parking, not its release, not a renewal
   already on its way.
   */
  lemma {:induction false} TakenOverAttemptsCannotWrite(rows: Rows, steps: seq<Step>, i: nat, act: Act)
    requires i < |Run(Start(rows), steps).attempts|
    requires OvertakenByAnother(Run(Start(rows), steps), i)
    ensures Next(Run(Start(rows), steps), Acts(i, act)).rows == Run(Start(rows), steps).rows
  {
    ReachableInv(rows, steps);
    var world := Run(Start(rows), steps);
    var attempt := world.attempts[i];
    if WriteOf(attempt, act).Some? {
      assert AttemptInv(attempt, world.rows[attempt.key]);
      assert Outcome(world.rows[attempt.key], WriteOf(attempt, act).value).Refused?;
      assert ApplyAt(world.rows, attempt.key, WriteOf(attempt, act).value) == world.rows;
    }
  }

  /**
   The heartbeat of a taken-over attempt that reads next aborts the attempt, unless the attempt has
   settled or the run has been stopped; either way that heartbeat chain is over.
   */
  lemma {:induction false} TakenOverHeartbeatAborts(rows: Rows, steps: seq<Step>, i: nat, now: Time)
    requires i < |Run(Start(rows), steps).attempts|
    requires OvertakenByAnother(Run(Start(rows), steps), i)
    requires Run(Start(rows), steps).attempts[i].beat.Reading? && !Run(Start(rows), steps).attempts[i].crashed
    ensures var world := Run(Start(rows), steps);
            var before, after := world.attempts[i], Next(world, Acts(i, BeatReads(now))).attempts[i];
            && after.settled && after.beat == Off
            && (after.aborted <==> before.aborted || (!before.settled && world.rows[before.key].state != Stopped))
  {
    ReachableInv(rows, steps);
    var world := Run(Start(rows), steps);
    assert AttemptInv(world.attempts[i], world.rows[world.attempts[i].key]);
  }

  /**
   Every write that takes effect acts on exactly the row its attempt read: whatever was written in
   between, by anyone, would have refused it. So each read-then-write of the worker is one atomic step.
   */
  lemma {:induction false} EffectiveWritesAreAtomic(rows: Rows, steps: seq<Step>, i: nat, act: Act)
    requires i < |Run(Start(rows), steps).attempts|
    requires Next(Run(Start(rows), steps), Acts(i, act)).rows != Run(Start(rows), steps).rows
    ensures var world := Run(Start(rows), steps);
            var attempt := world.attempts[i];
            && WriteOf(attempt, act).Some? && attempt.key in world.rows
            && world.rows[attempt.key] == BasisOf(attempt, act)
            && world.rows[attempt.key].owner == Some(attempt.worker)
  {
    ReachableInv(rows, steps);
    var world := Run(Start(rows), steps);
    var attempt := world.attempts[i];
    assert AttemptInv(attempt, world.rows[attempt.key]);
    assert world.rows[attempt.key := world.rows[attempt.key]] == world.rows;
  }

  /** A claim by anyone, the same worker included, dooms the failure record and the parking of earlier attempts. */
  lemma {:induction false} OvertakenClaimVersionsAreRefused(rows: Rows, steps: seq<Step>, i: nat, now: Time)
    requires i < |Run(Start(rows), steps).attempts| && Overtaken(Run(Start(rows), steps), i)
    ensures Next(Run(Start(rows), steps), Acts(i, WriteLands(now))).rows == Run(Start(rows), steps).rows
  {
    ReachableInv(rows, steps);
    if Next(Run(Start(rows), steps), Acts(i, WriteLands(now))).rows != Run(Start(rows), steps).rows {
      EffectiveWritesAreAtomic(rows, steps, i, WriteLands(now));
      assert false;
    }
  }

  /** An attempt is live while it or its heartbeat can still act; a crashed one while a write of it is on its way. */
  predicate Live(attempt: Attempt) {
    if attempt.crashed then attempt.phase.Writing? || attempt.phase.Releasing? || attempt.beat.Renewing?
    else !attempt.phase.Ended? || attempt.beat != Off
  }

  /** The step does not let a worker claim a run on which one of its own attempts is still live. */
  predicate ClaimsOnce(world: World, step: Step) {
    step.Claims? ==>
      forall i :: 0 <= i < |world.attempts| && world.attempts[i].key == step.key && Live(world.attempts[i]) ==>
                    world.attempts[i].worker != step.worker
  }

  predicate AlwaysClaimsOnce(world: World, steps: seq<Step>)
    decreases steps
  {
    steps == [] || (ClaimsOnce(world, steps[0]) && AlwaysClaimsOnce(Next(world, steps[0]), steps[1..]))
  }

  predicate LiveOvertakenByAnother(world: World) {
    forall i :: 0 <= i < |world.attempts| && Overtaken(world, i) && Live(world.attempts[i])
           ==> OvertakenByAnother(world, i)
  }

  lemma EndedStaysEnded(attempt: Attempt, row: Row, act: Act)
    requires CanAct(attempt, act)
    ensures Live(After(attempt, row, act)) ==> Live(attempt)
    ensures After(attempt, row, act).key == attempt.key && After(attempt, row, act).worker == attempt.worker
  {
  }

  /** A live attempt of the next world was live before, under the same identity, or is the one just claimed. */
  lemma LiveBefore(world: World, step: Step, i: nat)
    requires Inv(world) && i < |Next(world, step).attempts| && i < |world.attempts|
    ensures var attempt := Next(world, step).attempts[i];
            attempt.key == world.attempts[i].key && attempt.worker == world.attempts[i].worker
              && (Live(attempt) ==> Live(world.attempts[i]))
  {
    if step.Acts? && step.i == i && CanAct(world.attempts[i], step.act) && world.attempts[i].key in world.rows {
      EndedStaysEnded(world.attempts[i], world.rows[world.attempts[i].key], step.act);
    }
  }

  /** One attempt of the world before, still live and overtaken after the step. */
  lemma StillOvertakenByAnother(world: World, step: Step, i: nat)
    requires Inv(world) && Inv(Next(world, step)) && LiveOvertakenByAnother(world) && ClaimsOnce(world, step)
    requires i < |world.attempts| && i < |Next(world, step).attempts| && Overtaken(Next(world, step), i)
             && Live(Next(world, step).attempts[i])
    ensures OvertakenByAnother(Next(world, step), i)
  {
    LiveBefore(world, step, i);
    var key := world.attempts[i].key;
    if Next(world, step).latest[key] == world.latest[key] {
      LiveBefore(world, step, world.latest[key]);
      assert Overtaken(world, i) && OvertakenByAnother(world, i);
    }
  }

  lemma NextKeepsOvertaken(world: World, step: Step)
    requires Inv(world) && LiveOvertakenByAnother(world) && ClaimsOnce(world, step)
    ensures LiveOvertakenByAnother(Next(world, step))
  {
    var next := Next(world, step);
    NextKeepsInv(world, step);
    forall i | 0 <= i < |next.attempts| && Overtaken(next, i) && Live(next.attempts[i])
      ensures OvertakenByAnother(next, i) {
      if i < |world.attempts| {
        StillOvertakenByAnother(world, step, i);
      }
    }
  }

  lemma {:induction false} RunKeepsOvertaken(world: World, steps: seq<Step>)
    requires Inv(world) && LiveOvertakenByAnother(world) && AlwaysClaimsOnce(world, steps)
    ensures LiveOvertakenByAnother(Run(world, steps))
    decreases steps
  {
    if steps != [] {
      NextKeepsInv(world, steps[0]);
      NextKeepsOvertaken(world, steps[0]);
      RunKeepsOvertaken(Next(world, steps[0]), steps[1..]);
    }
  }

  /** An attempt with nothing pending changes nothing. */
  lemma DeadAttemptsDoNotWrite(world: World, i: nat, act: Act)
    requires i < |world.attempts| && !Live(world.attempts[i])
    ensures Next(world, Acts(i, act)).rows == world.rows
  {
  }

  /**
   Leases name workers, not attempts. Where no worker claims a run it still has a live attempt on,
   a later claim by anyone fences every earlier attempt completely.
   */
  lemma {:induction false} OvertakenAttemptsCannotWrite(rows: Rows, steps: seq<Step>, i: nat, act: Act)
    requires AlwaysClaimsOnce(Start(rows), steps)
    requires i < |Run(Start(rows), steps).attempts| && Overtaken(Run(Start(rows), steps), i)
    ensures Next(Run(Start(rows), steps), Acts(i, act)).rows == Run(Start(rows), steps).rows
  {
    RunKeepsOvertaken(Start(rows), steps);
    if Live(Run(Start(rows), steps).attempts[i]) {
      TakenOverAttemptsCannotWrite(rows, steps, i, act);
    } else {
      DeadAttemptsDoNotWrite(Run(Start(rows), steps), i, act);
    }
  }

  /** `processQueuedSignal` and `resumeTask` run only for attempts whose claimed row allows them. */
  lemma {:induction false} WorkOnlyOnAllowedRows(rows: Rows, steps: seq<Step>, i: nat)
    requires i < |Run(Start(rows), steps).attempts| && Run(Start(rows), steps).attempts[i].phase.Working?
    ensures var attempt := Run(Start(rows), steps).attempts[i];
            if attempt.phase.work == ProcessSignal then Replayable(attempt.claimed)
            else Resumable(attempt.claimed, attempt.key.tenant)
  {
    ReachableInv(rows, steps);
    var world := Run(Start(rows), steps);
    assert AttemptInv(world.attempts[i], world.rows[world.attempts[i].key]);
  }

  /** No other writer settles or drops the mutating action of this run during the steps. */
  predicate LeavesInDoubt(steps: seq<Step>, key: Key) {
    forall s :: 0 <= s < |steps| && steps[s].Interferes? && steps[s].key == key
           ==> steps[s].newPayload.HasMutatingPending()
  }

  /** The row is in doubt, and so is every row claimed since attempt `from`. */
  predicate InDoubtSince(world: World, key: Key, from: nat) {
    && key in world.rows && world.rows[key].payload.HasMutatingPending()
    && from <= |world.attempts|
    && (forall i :: from <= i < |world.attempts| && world.attempts[i].key == key ==>
          world.attempts[i].claimed.payload.HasMutatingPending())
  }

  lemma NextKeepsDoubt(world: World, step: Step, key: Key, from: nat)
    requires Inv(world) && InDoubtSince(world, key, from)
    requires step.Interferes? && step.key == key ==> step.newPayload.HasMutatingPending()
    ensures InDoubtSince(Next(world, step), key, from)
  {
    if step.Acts? {
      ActKeepsDoubt(world, step.i, step.act, key, from);
    }
  }

  lemma WriteKeepsDoubt(attempt: Attempt, row: Row, act: Act)
    requires row.payload.HasMutatingPending() && AttemptInv(attempt, row)
    ensures ActedRow(attempt, row, act).payload.HasMutatingPending()
  {
  }

  lemma ActKeepsDoubt(world: World, i: nat, act: Act, key: Key, from: nat)
    requires Inv(world) && InDoubtSince(world, key, from)
    ensures InDoubtSince(Next(world, Acts(i, act)), key, from)
  {
    if i < |world.attempts| && CanAct(world.attempts[i], act) {
      var attempt := world.attempts[i];
      assert AttemptInv(attempt, world.rows[attempt.key]);
      AfterKeepsAttemptInv(attempt, world.rows[attempt.key], act);
      if attempt.key == key {
        WriteKeepsDoubt(attempt, world.rows[key], act);
      }
    }
  }

  lemma {:induction false} RunKeepsDoubt(world: World, steps: seq<Step>, key: Key, from: nat)
    requires Inv(world) && InDoubtSince(world, key, from) && LeavesInDoubt(steps, key)
    ensures InDoubtSince(Run(world, steps), key, from)
    decreases steps
  {
    if steps != [] {
      NextKeepsInv(world, steps[0]);
      NextKeepsDoubt(world, steps[0], key, from);
      assert LeavesInDoubt(steps[1..], key);
      RunKeepsDoubt(Next(world, steps[0]), steps[1..], key, from);
    }
  }

  lemma {:induction false} RunConcat(world: World, first: seq<Step>, second: seq<Step>)
    ensures Run(world, first + second) == Run(Run(world, first), second)
    decreases first
  {
    if first == [] {
      assert first + second == second;
    } else {
      assert (first + second)[1..] == first[1..] + second;
      RunConcat(Next(world, first[0]), first[1..], second);
    }
  }

  /**
   No replay of an unknown effect. From any moment at which a row carries a mutating action in doubt,
   through any claims, crashes, releases, reclaims and resumes, no attempt that claims the run executes
   its original signal, as long as nobody outside the worker settles the action.
   */
  lemma {:induction false} DoubtIsNeverReplayed(rows: Rows, before: seq<Step>, after: seq<Step>, key: Key, i: nat)
    requires key in Run(Start(rows), before).rows && Run(Start(rows), before).rows[key].payload.HasMutatingPending()
    requires LeavesInDoubt(after, key)
    requires |Run(Start(rows), before).attempts| <= i < |Run(Start(rows), before + after).attempts|
    requires Run(Start(rows), before + after).attempts[i].key == key
    ensures Run(Start(rows), before + after).attempts[i].phase != Working(ProcessSignal)
    ensures Run(Start(rows), before + after).attempts[i].phase != Binding(ProcessSignal)
  {
    ReachableInv(rows, before);
    RunConcat(Start(rows), before, after);
    RunKeepsDoubt(Run(Start(rows), before), after, key, |Run(Start(rows), before).attempts|);
    RunKeepsInv(Run(Start(rows), before), after);
    var world := Run(Start(rows), before + after);
    assert AttemptInv(world.attempts[i], world.rows[key]);
  }

  /** Whatever happens around it, a release that takes effect requeues running work only and keeps the payload. */
  lemma {:induction false} ReleaseNeverMovesParkedWork(rows: Rows, steps: seq<Step>, i: nat, now: Time)
    requires i < |Run(Start(rows), steps).attempts|
    requires Next(Run(Start(rows), steps), Acts(i, ReleaseLands(now))).rows != Run(Start(rows), steps).rows
    ensures var world := Run(Start(rows), steps);
            var key := world.attempts[i].key;
            var next := Next(world, Acts(i, ReleaseLands(now)));
            && key in world.rows && key in next.rows
            && next.rows[key].payload == world.rows[key].payload
            && next.rows[key].state == (if world.rows[key].Parked() then world.rows[key].state else Queued)
            && (world.rows[key].Parked() || world.rows[key].state == Running)
  {
    ReachableInv(rows, steps);
    EffectiveWritesAreAtomic(rows, steps, i, ReleaseLands(now));
    var world := Run(Start(rows), steps);
    assert AttemptInv(world.attempts[i], world.rows[world.attempts[i].key]);
  }

  // ---- how far the fence reaches

  /** The world in which the attempt's heartbeat reads and then lands its renewal. */
  function AfterRenewing(world: World, i: nat, now: Time, dbNow: Time, ttl: Time, later: Time, answered: bool): World {
    Next(Next(world, Acts(i, BeatReads(now))), Acts(i, RenewLands(now, dbNow, ttl, later, answered)))
  }

  /** The world in which the attempt reads for its release and then lands it. */
  function AfterReleasing(world: World, i: nat, now: Time): World {
    Next(Next(world, Acts(i, ReadsForRelease)), Acts(i, ReleaseLands(now)))
  }

  /** Somebody's lease on the row is live. */
  predicate LiveLease(row: Row, now: Time) { row.owner.Some? && row.LeaseHeld(row.owner.value, now) }

  /** A release by the lease's owner, on an attempt's say, would go through. */
  predicate Releasable(row: Row, claimed: Row, now: Time) {
    LiveLease(row, now) && AtomicRelease(row, row.owner.value, ReleasesParked(claimed), now).Some?
  }

  /** In a reachable world the owner of a live lease is the worker that claimed the run last. */
  lemma OwnerClaimedLast(world: World, i: nat)
    requires Inv(world) && i < |world.attempts| && Overtaken(world, i)
    requires world.attempts[i].key in world.rows && world.rows[world.attempts[i].key].owner.Some?
    ensures OvertakenByAnother(world, i) <==> world.rows[world.attempts[i].key].owner != Some(world.attempts[i].worker)
  {
  }

  lemma ReadStep(world: World, i: nat, act: Act)
    requires i < |world.attempts| && !world.attempts[i].crashed && world.attempts[i].key in world.rows
    requires act.BeatReads? || act.ReadsForRelease?
    ensures var next := Next(world, Acts(i, act));
            next.rows == world.rows && |next.attempts| == |world.attempts|
            && next.attempts[i] == After(world.attempts[i], world.rows[world.attempts[i].key], act)
  {
  }

  lemma LandStep(world: World, i: nat, act: Act)
    requires i < |world.attempts| && !world.attempts[i].crashed && world.attempts[i].key in world.rows
    requires act.RenewLands? || act.ReleaseLands?
    ensures Next(world, Acts(i, act)).rows != world.rows <==>
            (WriteOf(world.attempts[i], act).Some?
             && Outcome(world.rows[world.attempts[i].key], WriteOf(world.attempts[i], act).value).Written?)
  {
    var key := world.attempts[i].key;
    var write := WriteOf(world.attempts[i], act);
    if write.Some? {
      assert ApplyAt(world.rows, key, write.value)[key] == Apply(world.rows[key], write.value);
      if Outcome(world.rows[key], write.value).Refused? {
        assert world.rows[key := world.rows[key]] == world.rows;
      }
    }
  }

  /**
   What fencing does not cover, for the renewal: in every reachable world, an overtaken attempt whose
   heartbeat reads under a live lease renews that lease if and only if its own worker claimed the run last.
   */
  lemma {:induction false} RenewalFencedExactlyFromOthers(rows: Rows, steps: seq<Step>, i: nat, now: Time, dbNow: Time,
          ttl: Time, later: Time, answered: bool)
    requires var world := Run(Start(rows), steps);
             && i < |world.attempts| && Overtaken(world, i) && !world.attempts[i].crashed
                && world.attempts[i].beat.Reading?
             && world.attempts[i].key in world.rows && LiveLease(world.rows[world.attempts[i].key], now)
    ensures var world := Run(Start(rows), steps);
            AfterRenewing(world, i, now, dbNow, ttl, later, answered).rows != world.rows <==>
              !OvertakenByAnother(world, i)
  {
    var world := Run(Start(rows), steps);
    ReachableInv(rows, steps);
    OwnerClaimedLast(world, i);
    ReadStep(world, i, BeatReads(now));
    LandStep(Next(world, Acts(i, BeatReads(now))), i, RenewLands(now, dbNow, ttl, later, answered));
  }

  /**
   And for the release: an overtaken attempt at its release gives the
   lease of the later claim away under the same condition.
   */
  lemma {:induction false} ReleaseFencedExactlyFromOthers(rows: Rows, steps: seq<Step>, i: nat, now: Time)
    requires var world := Run(Start(rows), steps);
             && i < |world.attempts| && Overtaken(world, i) && !world.attempts[i].crashed
                && world.attempts[i].phase.ReleaseRead?
             && world.attempts[i].key in world.rows
                && Releasable(world.rows[world.attempts[i].key], world.attempts[i].claimed, now)
    ensures var world := Run(Start(rows), steps);
            AfterReleasing(world, i, now).rows != world.rows <==> !OvertakenByAnother(world, i)
  {
    var world := Run(Start(rows), steps);
    ReachableInv(rows, steps);
    OwnerClaimedLast(world, i);
    ReadStep(world, i, ReadsForRelease);
    LandStep(Next(world, Acts(i, ReadsForRelease)), i, ReleaseLands(now));
  }

  const FRESH: Payload := Record(NoEvent, false, true, Some("support"), 0)
  const CARE: Registry := Registry({"support"}, true)

  /** The row as the same worker leaves it after its first and its second claim. */
  function ClaimedAt(worker: Worker, version: nat, expiry: Time): Row {
    Row(Running, version, Some(worker), Some(expiry), FRESH)
  }

  function FirstTry(key: Key, worker: Worker, phase: Phase): Attempt {
    Attempt(worker, key, ClaimedAt(worker, 1, 10.0), phase, Armed, false, false, false)
  }

  function SecondTry(key: Key, worker: Worker): Attempt {
    Attempt(worker, key, ClaimedAt(worker, 2, 30.0), Working(ProcessSignal), Armed, false, false, false)
  }

  function BothTry(key: Key, worker: Worker, phase: Phase): World {
    World(map[key := ClaimedAt(worker, 2, 30.0)], [FirstTry(key, worker, phase), SecondTry(key, worker)], map[key := 1])
  }

  lemma WorkerClaimsTwice(key: Key, worker: Worker)
    ensures var w1 := Next(Start(map[key := Row(Queued, 0, None, None, FRESH)]), Claims(worker, key, 0.0, 10.0, CARE));
            var w2 := Next(w1, Acts(0, BindingReturns(true)));
            var w3 := Next(w2, Claims(worker, key, 20.0, 10.0, CARE));
            Next(w3, Acts(1, BindingReturns(true))) == BothTry(key, worker, Working(ProcessSignal))
  {
    var w1 := Next(Start(map[key := Row(Queued, 0, None, None, FRESH)]), Claims(worker, key, 0.0, 10.0, CARE));
    assert w1 == World(map[key := ClaimedAt(worker, 1, 10.0)], [FirstTry(key, worker, Binding(ProcessSignal))],
                       map[key := 0]);
    var w2 := Next(w1, Acts(0, BindingReturns(true)));
    assert w2 == World(map[key := ClaimedAt(worker, 1, 10.0)], [FirstTry(key, worker, Working(ProcessSignal))],
                       map[key := 0]);
    var w3 := Next(w2, Claims(worker, key, 20.0, 10.0, CARE));
    assert w3 == World(map[key := ClaimedAt(worker, 2, 30.0)],
                       [FirstTry(key, worker, Working(ProcessSignal)),
                        SecondTry(key, worker).(phase := Binding(ProcessSignal))],
                       map[key := 1]);
  }

  lemma FirstTryReleases(key: Key, worker: Worker)
    ensures var w1 := Next(BothTry(key, worker, Working(ProcessSignal)), Acts(0, WorkEnds));
            var w2 := Next(w1, Acts(0, ReadsLast));
            var w3 := Next(w2, Acts(0, ReadsForRelease));
            var w4 := Next(w3, Acts(0, ReleaseLands(25.0)));
            w4 == BothTry(key, worker, Ended).(rows := map[key := Row(Queued, 3, None, None, FRESH)])
  {
    var w1 := Next(BothTry(key, worker, Working(ProcessSignal)), Acts(0, WorkEnds));
    assert w1 == BothTry(key, worker, LastRead);
    var w2 := Next(w1, Acts(0, ReadsLast));
    assert w2 == BothTry(key, worker, ReleaseRead);
    var w3 := Next(w2, Acts(0, ReadsForRelease));
    assert w3 == BothTry(key, worker, Releasing(ClaimedAt(worker, 2, 30.0), Queued));
  }

  /**
   An instance of the gap, reached from a queued row: a worker whose lease lapsed claims its own run again, and
   its first attempt then requeues the run under the second one, which is still executing it.
   */
  lemma SameWorkerReclaimIsNotFenced(key: Key, worker: Worker) returns (steps: seq<Step>)
    ensures var world := Run(Start(map[key := Row(Queued, 0, None, None, FRESH)]), steps);
            && |world.attempts| == 2 && Overtaken(world, 0)
            && world.attempts[1].phase == Working(ProcessSignal) && !world.attempts[1].aborted
            && world.rows == map[key := Row(Queued, 3, None, None, FRESH)]
  {
    var start := Start(map[key := Row(Queued, 0, None, None, FRESH)]);
    var claims := [Claims(worker, key, 0.0, 10.0, CARE), Acts(0, BindingReturns(true)),
                   Claims(worker, key, 20.0, 10.0, CARE), Acts(1, BindingReturns(true))];
    var release := [Acts(0, WorkEnds), Acts(0, ReadsLast), Acts(0, ReadsForRelease), Acts(0, ReleaseLands(25.0))];
    steps := claims + release;
    RunConcat(start, claims, release);
    RunFour(start, claims);
    WorkerClaimsTwice(key, worker);
    RunFour(BothTry(key, worker, Working(ProcessSignal)), release);
    FirstTryReleases(key, worker);
  }

  lemma {:induction false} RunFour(world: World, steps: seq<Step>)
    requires |steps| == 4
    ensures Run(world, steps) == Next(Next(Next(Next(world, steps[0]), steps[1]), steps[2]), steps[3])
  {
    assert steps[1..][1..] == steps[2..];
    assert steps[2..][1..] == steps[3..];
    assert steps[3..][1..] == [];
    assert Run(world, steps) == Run(Next(world, steps[0]), steps[1..]);
    assert Run(Next(Next(world, steps[0]), steps[1]), steps[2..])
        == Run(Next(Next(Next(world, steps[0]), steps[1]), steps[2]), steps[3..]);
  }
}
