/** What an attempt leaves of its row when nobody disturbs it, and how its `finally` decides. */
module AttemptEnds {
  import opened DurableTasks
  import opened Options
  import opened TaskAttempt
  import Fleet

  /** Nothing reaches the row from outside, nothing is lost, and the lease outlives the attempt. */
  predicate Undisturbed(row: Row, worker: Worker, env: Environment) {
    && env.duringBinding == env.beforeWrite == env.duringWork == env.beforeFinalRead == env.betweenReads
       == env.beforeRelease == []
    && env.ownWrite.Heard? && env.release.Heard? && !env.lastReadFails && !env.releaseReadFails
    && row.LeaseHeld(worker, env.writeClock) && row.LeaseHeld(worker, env.releaseClock)
  }

  /** The row a release leaves. */
  function GivenBack(row: Row): Row {
    Row(if row.state == Running then Queued else row.state, row.version + 1, None, None, row.payload)
  }

  predicate HasEvent(row: Row) { row.payload.Record? && row.payload.resume.Event? }

  predicate InFlight(row: Row) { row.payload.Record? && row.payload.mutatingPending }

  /** The end of an attempt has something to give back: it began or ends with an event, or no action is in doubt. */
  predicate Wanted(claimed: Row, row: Row) { HasEvent(claimed) || HasEvent(row) || !InFlight(row) }

  /** A parked row may be given back if an event is or was there, or the attempt found it parked. */
  predicate ParkedToo(claimed: Row, row: Row) {
    HasEvent(row) || HasEvent(claimed) || claimed.state == Waiting || claimed.state == AwaitingHuman
  }

  /**
   An undisturbed `finally` gives back running work as queued, waiting work as waiting, and work awaiting a human only
   with an event; without one the refusal escapes. An aborted attempt gives nothing back.
   */
  lemma {:induction false} FinallyGivesBackExactly(rows: Rows, key: Key, claimed: Row, worker: Worker, env: Environment)
    requires key in rows && Undisturbed(rows[key], worker, env)
    ensures var row, (outcome, after) := rows[key], FinishResult(rows, key, claimed, worker, env);
            var wanted := env.abortStage > 2 && Wanted(claimed, row);
            && (outcome == Some(Released) <==>
                  wanted && (row.state == Running
                             || (ParkedToo(claimed, row) && (row.state == Waiting || row.payload.HasResumeKey()))))
            && (outcome == Some(Rethrown(ReleaseStateInvalid)) <==>
                  wanted && row.state == AwaitingHuman && ParkedToo(claimed, row) && !row.payload.HasResumeKey())
            && (outcome == None <==> !wanted)
            && after == if outcome == Some(Released) then rows[key := GivenBack(row)] else rows
  {
  }

  /** The attempt's own statements change the row exactly by recording a failure or by parking. */
  lemma {:induction false} OwnEffectExactly(rows: Rows, key: Key, worker: Worker, env: Environment)
    requires key in rows && Undisturbed(rows[key], worker, env)
    ensures var row, calls := rows[key], ExpectedCalls(rows[key], key.tenant, env);
            PlayAll(rows, BodyWrites(row, key, worker, env)) ==
              if (exists code :: RecordFailure(code) in calls) && row.state != AwaitingHuman then
                rows[key := Row(Failed, row.version + 1, None, None, row.payload)]
              else if ParkWaiting in calls && row.payload.complete then
                rows[key := row.(state := Waiting, version := row.version + 1)]
              else rows
  {
    var row, calls := rows[key], ExpectedCalls(rows[key], key.tenant, env);
    ExpectedCallsMatch(row, key.tenant, env);
    var own := OwnWrites(row, key, worker, env);
    assert BodyWrites(row, key, worker, env) == own;
    if own != [] {
      assert own == [own[0]];
      PlayOne(rows, own[0]);
    }
    assert calls != [] ==> calls[0] in calls;
    assert rows[key := row] == rows;
  }

  /**
   An effect in doubt is parked: an undisturbed attempt on such a row calls nothing else, leaves it waiting with its
   payload, does not give it back, and without an event nobody can ever claim it again.
   */
  lemma {:induction false} DoubtIsParkedForGood(rows: Rows, key: Key, worker: Worker, env: Environment)
    requires key in rows && Undisturbed(rows[key], worker, env) && env.abortStage > 2
    requires PlainSignal(rows[key]) && rows[key].payload.mutatingPending && rows[key].payload.complete
    ensures var row := rows[key]; var parked := row.(state := Waiting, version := row.version + 1);
            && ExpectedCalls(row, key.tenant, env) == [ParkWaiting]
            && AttemptResult(rows, key, row, worker, env) == (None, rows[key := parked])
            && forall at :: !parked.Claimable(at)
  {
    OwnEffectExactly(rows, key, worker, env);
    ExpectedCallsMatch(rows[key], key.tenant, env);
    FinallyGivesBackExactly(rows[key := rows[key].(state := Waiting, version := rows[key].version + 1)], key,
                            rows[key], worker, env);
  }

  /** Work that leaves its row alone is given back: running work queued, parked work parked with its event. */
  lemma {:induction false} WorkedRowIsGivenBack(rows: Rows, key: Key, worker: Worker, env: Environment, work: Work)
    requires key in rows && Undisturbed(rows[key], worker, env) && env.abortStage > 2
    requires Execute(work) in ExpectedCalls(rows[key], key.tenant, env)
    ensures AttemptResult(rows, key, rows[key], worker, env) == (Some(Released), rows[key := GivenBack(rows[key])])
  {
    OwnEffectExactly(rows, key, worker, env);
    ExpectedCallsMatch(rows[key], key.tenant, env);
    FinallyGivesBackExactly(rows, key, rows[key], worker, env);
  }

  /** A row that fails a check and can be failed is failed, and not given back. */
  lemma {:induction false} FailedRowStaysFailed(rows: Rows, key: Key, worker: Worker, env: Environment,
                                                code: FailureCode)
    requires key in rows && Undisturbed(rows[key], worker, env) && rows[key].state != AwaitingHuman
    requires RecordFailure(code) in ExpectedCalls(rows[key], key.tenant, env)
    ensures var (outcome, after) := AttemptResult(rows, key, rows[key], worker, env);
            && after == rows[key := Row(Failed, rows[key].version + 1, None, None, rows[key].payload)]
            && outcome != Some(Released)
  {
    OwnEffectExactly(rows, key, worker, env);
  }

  /**
   How a release ends when others write between its read and its arrival: it goes through exactly on a row of its own
   that nobody has written since; a lost race and an expired lease are swallowed, a refused state escapes.
   */
  lemma {:induction false} ReleaseOutcomesExactly(rows: Rows, key: Key, worker: Worker, releaseParked: bool,
                                                  between: seq<(Key, Write)>, now: Time)
    requires key in rows
    ensures var row, (outcome, after) := rows[key], ReleaseResult(rows, key, worker, releaseParked, between, now);
            var parked := row.state == Waiting || row.state == AwaitingHuman;
            var mine := row.owner == Some(worker)
                && (row.state == Running || (parked && (HasEvent(row) || releaseParked)));
            var reached := mine && RowAfter(rows, between, key) == Some(row) && row.LeaseHeld(worker, now);
            var allowed := row.state != AwaitingHuman || row.payload.HasResumeKey();
            && (outcome == Released <==> reached && allowed)
            && (outcome == Rethrown(ReleaseStateInvalid) <==> reached && !allowed)
            && (outcome == NotReleased <==> !reached)
            && after == if !mine then rows else if reached && allowed then PlayAll(rows, between)[key := GivenBack(row)]
                        else PlayAll(rows, between)
  {
  }

  /**
   An abort before the last read leaves the row alone, and one during it or a lost read gives nothing back. A release
   whose read is lost, or that is not sent, leaves what the others wrote.
   */
  lemma {:induction false} LostCallsGiveNothingBack(rows: Rows, key: Key, claimed: Row, worker: Worker,
                                                    env: Environment)
    ensures var found := PlayAll(rows, env.beforeFinalRead); var between := PlayAll(found, env.betweenReads);
            var (outcome, after) := FinishResult(rows, key, claimed, worker, env);
            && (env.abortStage <= 1 ==> (outcome, after) == (None, rows))
            && (env.abortStage == 2 || (env.abortStage > 2 && env.lastReadFails) ==> (outcome, after) == (None, found))
            && (env.abortStage > 2 && !env.lastReadFails && (key in found ==> Wanted(claimed, found[key])) ==>
                  && outcome.Some?
                  && (env.releaseReadFails ==> outcome == Some(CallLost) && after == between)
                  && (!env.releaseReadFails && key !in between ==> outcome == Some(NotReleased) && after == between)
                  && (!env.releaseReadFails && key in between && between[key].owner != Some(worker) ==>
                        outcome == Some(NotReleased) && after == between)
                  && (env.release.Unsent? ==>
                        && outcome != Some(Released)
                        && (after == between || after == PlayAll(between, env.beforeRelease))))
  {
  }

  // ---- crashes

  /** A crash stops exactly the attempts of its worker, and leaves every row. */
  lemma CrashStopsItsWorker(world: Fleet.World, worker: Worker)
    ensures var next := Fleet.Next(world, Fleet.Crashes(worker));
            && next.rows == world.rows && next.latest == world.latest && |next.attempts| == |world.attempts|
            && forall i :: 0 <= i < |world.attempts| ==>
                 var attempt := world.attempts[i];
                 next.attempts[i] == attempt.(crashed := attempt.crashed || attempt.worker == worker)
  {
  }

  /** Of an attempt that has crashed only a write on its way can still land. */
  lemma CrashedAttemptsDoNothingElse(world: Fleet.World, i: nat, act: Fleet.Act)
    requires i < |world.attempts| && world.attempts[i].crashed
    requires !(act.WriteLands? && world.attempts[i].phase.Writing?)
    requires !(act.ReleaseLands? && world.attempts[i].phase.Releasing?)
    requires !(act.RenewLands? && world.attempts[i].beat.Renewing?)
    ensures Fleet.Next(world, Fleet.Acts(i, act)) == world
  {
  }

  // ---- the fleet's attempts are these attempts

  /** One attempt on its row, act by act. */
  function Solo(attempt: Fleet.Attempt, row: Row, acts: seq<Fleet.Act>): (Fleet.Attempt, Row)
    decreases acts
  {
    if acts == [] then (attempt, row)
    else Solo(Fleet.After(attempt, row, acts[0]), Fleet.ActedRow(attempt, row, acts[0]), acts[1..])
  }

  function StepsOf(i: nat, acts: seq<Fleet.Act>): seq<Fleet.Step> {
    seq(|acts|, k requires 0 <= k < |acts| => Fleet.Acts(i, acts[k]))
  }

  lemma {:induction false} SoloStaysItself(attempt: Fleet.Attempt, row: Row, act: Fleet.Act)
    ensures var after := Fleet.After(attempt, row, act);
            after.key == attempt.key && after.worker == attempt.worker && after.claimed == attempt.claimed
            && after.crashed == attempt.crashed
  {
  }

  /** In the fleet, an attempt that acts on its own changes its row as it does by itself. */
  lemma {:induction false} FleetPlaysSolo(world: Fleet.World, i: nat, acts: seq<Fleet.Act>)
    requires i < |world.attempts| && !world.attempts[i].crashed && world.attempts[i].key in world.rows
    ensures var attempt := world.attempts[i];
            var (last, row) := Solo(attempt, world.rows[attempt.key], acts);
            var after := Fleet.Run(world, StepsOf(i, acts));
            && |after.attempts| == |world.attempts| && after.attempts[i] == last
            && after.rows == world.rows[attempt.key := row]
    decreases acts
  {
    var attempt := world.attempts[i];
    assert world.rows[attempt.key := world.rows[attempt.key]] == world.rows;
    if acts != [] {
      var next := Fleet.Next(world, Fleet.Acts(i, acts[0]));
      SoloStaysItself(attempt, world.rows[attempt.key], acts[0]);
      assert next.rows == world.rows[attempt.key := Fleet.ActedRow(attempt, world.rows[attempt.key], acts[0])];
      assert StepsOf(i, acts)[1..] == StepsOf(i, acts[1..]);
      FleetPlaysSolo(next, i, acts[1..]);
    }
  }

  /** What an undisturbed attempt does in the fleet: its body, then the three acts of its `finally`. */
  function BodyActs(claimed: Row, tenant: Tenant, env: Environment): seq<Fleet.Act> {
    match Decide(claimed, tenant, env.registry)
    case LeaveParked => []
    case Bind(_) =>
      if env.binding.Rejects? then [Fleet.BindingRejects]
      else if env.binding.Unbound? then [Fleet.BindingReturns(false), Fleet.WriteLands(env.writeClock)]
      else [Fleet.BindingReturns(true), Fleet.WorkEnds]
    case _ => [Fleet.WriteLands(env.writeClock)]
  }

  function FinallyActs(env: Environment): seq<Fleet.Act> {
    [Fleet.ReadsLast, Fleet.ReadsForRelease, Fleet.ReleaseLands(env.releaseClock)]
  }

  function Claimed(worker: Worker, key: Key, claimed: Row, registry: Registry): Fleet.Attempt {
    Fleet.Attempt(worker, key, claimed, Fleet.FirstPhase(claimed, key.tenant, registry), Fleet.Armed, false, false,
                  false)
  }

  lemma {:induction false} SoloOne(attempt: Fleet.Attempt, row: Row, a: Fleet.Act)
    ensures Solo(attempt, row, [a]) == (Fleet.After(attempt, row, a), Fleet.ActedRow(attempt, row, a))
  {
    assert [a][1..] == [];
  }

  lemma {:induction false} SoloTwo(attempt: Fleet.Attempt, row: Row, a: Fleet.Act, b: Fleet.Act)
    ensures Solo(attempt, row, [a, b]) == Solo(Fleet.After(attempt, row, a), Fleet.ActedRow(attempt, row, a), [b])
  {
    assert [a, b][1..] == [b];
  }

  lemma {:induction false} SoloConcat(attempt: Fleet.Attempt, row: Row, a: seq<Fleet.Act>, b: seq<Fleet.Act>)
    ensures Solo(attempt, row, a + b) == Solo(Solo(attempt, row, a).0, Solo(attempt, row, a).1, b)
    decreases a
  {
    if a == [] {
      assert a + b == b;
    } else {
      assert (a + b)[1..] == a[1..] + b;
      SoloConcat(Fleet.After(attempt, row, a[0]), Fleet.ActedRow(attempt, row, a[0]), a[1..], b);
    }
  }

  /** The body in the fleet ends before the last read, with the row the attempt's own statements leave. */
  lemma {:induction false} BodyInTheFleet(rows: Rows, key: Key, worker: Worker, env: Environment)
    requires key in rows && Undisturbed(rows[key], worker, env) && env.abortStage > 2
    ensures var (last, row) := Solo(Claimed(worker, key, rows[key], env.registry), rows[key],
                                    BodyActs(rows[key], key.tenant, env));
            && last == Claimed(worker, key, rows[key], env.registry).(phase := Fleet.LastRead)
            && PlayAll(rows, BodyWrites(rows[key], key, worker, env)) == rows[key := row]
  {
    var claimed := rows[key];
    var attempt := Claimed(worker, key, claimed, env.registry);
    var acts := BodyActs(claimed, key.tenant, env);
    var own := OwnWrites(claimed, key, worker, env);
    assert BodyWrites(claimed, key, worker, env) == own;
    assert rows[key := rows[key]] == rows;
    if own != [] {
      assert own == [own[0]];
      PlayOne(rows, own[0]);
    }
    if |acts| == 1 {
      SoloOne(attempt, claimed, acts[0]);
    } else if |acts| == 2 {
      SoloTwo(attempt, claimed, acts[0], acts[1]);
      SoloOne(Fleet.After(attempt, claimed, acts[0]), claimed, acts[1]);
    }
  }

  lemma {:induction false} FinallyInTheFleet(rows: Rows, key: Key, claimed: Row, worker: Worker, env: Environment,
                                             attempt: Fleet.Attempt)
    requires key in rows && env.beforeFinalRead == env.betweenReads == env.beforeRelease == [] && env.release.Heard?
    requires !env.lastReadFails && !env.releaseReadFails && env.abortStage > 2
    requires attempt.worker == worker && attempt.claimed == claimed && attempt.phase.LastRead? && !attempt.aborted
    ensures var (last, row) := Solo(attempt, rows[key], FinallyActs(env));
            last.phase.Ended? && FinishResult(rows, key, claimed, worker, env).1 == rows[key := row]
  {
    var acts, row := FinallyActs(env), rows[key];
    assert acts == [acts[0]] + [acts[1], acts[2]];
    SoloConcat(attempt, row, [acts[0]], [acts[1], acts[2]]);
    SoloOne(attempt, row, acts[0]);
    var read := Fleet.After(attempt, row, acts[0]);
    SoloTwo(read, row, acts[1], acts[2]);
    SoloOne(Fleet.After(read, row, acts[1]), row, acts[2]);
    assert rows[key := rows[key]] == rows;
  }

  /**
   The fleet's attempt and the worker's are the same: from a claimed row, undisturbed, the fleet's acts end with
   exactly the table that the whole attempt leaves.
   */
  lemma {:induction false} FleetPlaysTheAttempt(world: Fleet.World, i: nat, env: Environment)
    requires i < |world.attempts| && world.attempts[i].key in world.rows && env.abortStage > 2
    requires var key := world.attempts[i].key;
             && world.attempts[i] == Claimed(world.attempts[i].worker, key, world.rows[key], env.registry)
             && Undisturbed(world.rows[key], world.attempts[i].worker, env)
    ensures var attempt, rows := world.attempts[i], world.rows;
            var acts := BodyActs(rows[attempt.key], attempt.key.tenant, env) + FinallyActs(env);
            var after := Fleet.Run(world, StepsOf(i, acts));
            && after.rows == AttemptResult(rows, attempt.key, rows[attempt.key], attempt.worker, env).1
            && |after.attempts| == |world.attempts| && after.attempts[i].phase.Ended?
  {
    var attempt, rows := world.attempts[i], world.rows;
    var key, claimed, worker := attempt.key, rows[attempt.key], attempt.worker;
    var body := BodyActs(claimed, key.tenant, env);
    BodyInTheFleet(rows, key, worker, env);
    var (last, row) := Solo(attempt, claimed, body);
    FinallyInTheFleet(rows[key := row], key, claimed, worker, env, last);
    SoloConcat(attempt, claimed, body, FinallyActs(env));
    FleetPlaysSolo(world, i, body + FinallyActs(env));
  }
}
