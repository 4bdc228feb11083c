/**
 Any number of workers over one task table. Each claimed task runs as an attempt with its own
 heartbeat; code between two awaits is one step, every database call lands in a step of its own, a
 process may crash at any point, and other writers interfere freely. All clock readings are
 arbitrary, so nothing here depends on clocks that agree.
 */
module Fleet {
  import opened Options
  import opened DurableTasks
  import opened TaskAttempt

  /** Where the attempt's code is waiting. */
  datatype Phase =
    | Writing(parks: bool)
    | Binding(work: Work)
    | Working(work: Work)
    | LastRead
    | ReleaseRead
    | Releasing(basis: Row, target: TaskState)
    | Ended

  /** The heartbeat: no timer, a timer, a read on its way, or a renewal based on the row it read. */
  datatype Beat = Off | Armed | Reading | Renewing(basis: Row)

  datatype Attempt = Attempt(worker: Worker, key: Key, claimed: Row, phase: Phase, beat: Beat,
                             settled: bool, aborted: bool, crashed: bool)

  /** `latest` is the attempt of the last successful claim of each run. */
  datatype World = World(rows: Rows, attempts: seq<Attempt>, latest: map<Key, nat>)

  datatype Act =
    | WriteLands(now: Time)
    | BindingReturns(bound: bool)
    | BindingRejects
    | CallLost
    | WorkEnds
    | ReadsLast
    | ReadsForRelease
    | ReleaseLands(now: Time)
    | BeatFires
    | BeatReads(now: Time)
    | BeatFails
    | RenewLands(now: Time, dbNow: Time, ttl: Time, later: Time, answered: bool)
    | Settles
    | DrainAborts

  datatype Step =
    | Claims(worker: Worker, key: Key, dbNow: Time, ttl: Time, registry: Registry)
    | Acts(i: nat, act: Act)
    | Crashes(worker: Worker)
    | Interferes(key: Key, newState: TaskState, newPayload: Payload, clearsLease: bool)

  /** The phase a fresh attempt reaches before its first await. */
  function FirstPhase(claimed: Row, tenant: Tenant, registry: Registry): Phase {
    match Decide(claimed, tenant, registry)
    case LeaveParked => LastRead
    case Fail(_) => Writing(false)
    case ParkUnknownEffect => Writing(true)
    case Bind(work) => Binding(work)
  }

  /** Entering the `finally`: an aborted attempt does nothing more. */
  function EndOrRead(attempt: Attempt): Phase {
    if attempt.aborted then Ended else LastRead
  }

  /**
   A repository call of the attempt that is lost on its way: a write
   ends in the `finally`, a call of the `finally` ends it.
   */
  function AfterLoss(attempt: Attempt): Phase {
    match attempt.phase
    case Writing(_) => EndOrRead(attempt)
    case LastRead => Ended
    case ReleaseRead => Ended
    case Releasing(_, _) => Ended
    case _ => attempt.phase
  }

  function StopBeat(attempt: Attempt): Attempt {
    attempt.(settled := true, beat := if attempt.beat.Armed? then Off else attempt.beat)
  }

  /** Losing the lease, or a drain timeout: a settled attempt is left alone. */
  function FailLease(attempt: Attempt): Attempt {
    if attempt.settled then attempt else StopBeat(attempt).(aborted := true)
  }

  /** The write an act lands, if it lands one. */
  function WriteOf(attempt: Attempt, act: Act): Option<Write> {
    match act
    case WriteLands(now) =>
      if attempt.phase != Writing(true) && attempt.phase != Writing(false) then None
      else if attempt.phase.parks then Some(Park(attempt.worker, attempt.claimed.version, attempt.claimed.payload, now))
      else Some(RecordFatal(attempt.worker, attempt.claimed.version, now))
    case ReleaseLands(now) =>
      if !attempt.phase.Releasing? then None
      else Some(Release(attempt.worker, attempt.phase.basis.version, attempt.phase.target, now))
    case RenewLands(now, dbNow, ttl, _, _) =>
      if attempt.beat.Renewing? then Some(Renew(attempt.worker, attempt.beat.basis.version, now, dbNow, ttl)) else None
    case _ => None
  }

  /** The row a landing write was decided on. */
  function BasisOf(attempt: Attempt, act: Act): Row
    requires WriteOf(attempt, act).Some?
  {
    match act
    case WriteLands(_) => attempt.claimed
    case ReleaseLands(_) => attempt.phase.basis
    case RenewLands(_, _, _, _, _) => attempt.beat.basis
  }

  /** What a heartbeat does with the row it reads. */
  function AfterBeatRead(attempt: Attempt, row: Row, now: Time): Attempt {
    if row.state == Stopped then StopBeat(attempt).(beat := Off)
    else if (row.state != Running && !row.Parked()) || row.owner != Some(attempt.worker)
            || row.expiresAt.None? || row.expiresAt.value <= now then FailLease(attempt).(beat := Off)
    else attempt.(beat := Renewing(row))
  }

  function AfterRenewal(attempt: Attempt, row: Row, act: Act): Attempt
    requires act.RenewLands? && attempt.beat.Renewing?
  {
    var result := Outcome(row, WriteOf(attempt, act).value);
    if result.Refused? || !act.answered || result.row.expiresAt.value <= act.later then FailLease(attempt).(beat := Off)
    else attempt.(beat := if attempt.settled then Off else Armed)
  }

  /** The attempt after one of its acts on the row it finds; an act that is not due changes nothing. */
  function After(attempt: Attempt, row: Row, act: Act): Attempt {
    match act
    case WriteLands(_) => if attempt.phase.Writing? then attempt.(phase := EndOrRead(attempt)) else attempt
    case BindingReturns(bound) =>
      if !attempt.phase.Binding? then attempt
      else if !bound then attempt.(phase := Writing(false))
      else attempt.(phase := if attempt.aborted then Ended else Working(attempt.phase.work))
    case BindingRejects => if attempt.phase.Binding? then attempt.(phase := EndOrRead(attempt)) else attempt
    case CallLost => attempt.(phase := AfterLoss(attempt))
    case WorkEnds => if attempt.phase.Working? then attempt.(phase := EndOrRead(attempt)) else attempt
    case ReadsLast =>
      if !attempt.phase.LastRead? then attempt
      else attempt.(phase := if !attempt.aborted && MayRelease(attempt.claimed, Some(row)) then ReleaseRead else Ended)
    case ReadsForRelease =>
      if !attempt.phase.ReleaseRead? then attempt
      else
        var target := ReleaseTarget(row, attempt.worker, ReleasesParked(attempt.claimed));
        attempt.(phase := if target.Some? then Releasing(row, target.value) else Ended)
    case ReleaseLands(_) => if attempt.phase.Releasing? then attempt.(phase := Ended) else attempt
    case BeatFires =>
      if !attempt.beat.Armed? then attempt
      else attempt.(beat := if attempt.settled || attempt.aborted then Off else Reading)
    case BeatReads(now) => if attempt.beat.Reading? then AfterBeatRead(attempt, row, now) else attempt
    case BeatFails =>
      if attempt.beat.Reading? || attempt.beat.Renewing? then FailLease(attempt).(beat := Off) else attempt
    case RenewLands(_, _, _, _, _) => if attempt.beat.Renewing? then AfterRenewal(attempt, row, act) else attempt
    case Settles => if attempt.phase.Ended? || attempt.aborted then StopBeat(attempt) else attempt
    case DrainAborts => FailLease(attempt)
  }

  function Crash(attempts: seq<Attempt>, worker: Worker): seq<Attempt> {
    seq(|attempts|, i requires 0 <= i < |attempts| =>
      if attempts[i].worker == worker then attempts[i].(crashed := true) else attempts[i])
  }

  /** A dead process does nothing more, but a write that is already on its way still lands. */
  predicate CanAct(attempt: Attempt, act: Act) { !attempt.crashed || WriteOf(attempt, act).Some? }

  /** One step of the fleet; a step that is not enabled changes nothing. */
  function Next(world: World, step: Step): World {
    match step
    case Claims(worker, key, dbNow, ttl, registry) =>
      if key !in world.rows || !world.rows[key].Claimable(dbNow) then world
      else
        var claimed := Apply(world.rows[key], Claim(worker, dbNow, ttl));
        var attempt := Attempt(worker, key, claimed, FirstPhase(claimed, key.tenant, registry), Armed, false, false,
                               false);
        World(world.rows[key := claimed], world.attempts + [attempt], world.latest[key := |world.attempts|])
    case Acts(i, act) =>
      if i >= |world.attempts| || !CanAct(world.attempts[i], act) || world.attempts[i].key !in world.rows then world
      else
        var attempt := world.attempts[i];
        var write := WriteOf(attempt, act);
        World(if write.Some? then ApplyAt(world.rows, attempt.key, write.value) else world.rows,
              world.attempts[i := After(attempt, world.rows[attempt.key], act)], world.latest)
    case Crashes(worker) => world.(attempts := Crash(world.attempts, worker))
    case Interferes(key, newState, newPayload, clearsLease) =>
      world.(rows := ApplyAt(world.rows, key, Foreign(newState, newPayload, clearsLease)))
  }

  function Run(world: World, steps: seq<Step>): World
    decreases steps
  {
    if steps == [] then world else Run(Next(world, steps[0]), steps[1..])
  }

  function Start(rows: Rows): World { World(rows, [], map[]) }

  /** A row read earlier: no newer than the stored one, and the same row when the versions agree. */
  predicate ReadEarlier(basis: Row, row: Row) {
    basis.version <= row.version && (basis.version == row.version ==> basis == row)
  }

  predicate AttemptInv(attempt: Attempt, row: Row) {
    && attempt.claimed.owner == Some(attempt.worker)
    && ReadEarlier(attempt.claimed, row)
    && (attempt.phase.Releasing? ==>
          && ReadEarlier(attempt.phase.basis, row)
          && ReleaseTarget(attempt.phase.basis, attempt.worker, ReleasesParked(attempt.claimed))
             == Some(attempt.phase.target))
    && (attempt.beat.Renewing? ==>
         ReadEarlier(attempt.beat.basis, row) && attempt.beat.basis.owner == Some(attempt.worker))
    && (attempt.beat.Armed? ==> !attempt.settled)
    && (attempt.aborted ==> attempt.settled)
    && (attempt.phase == Binding(ProcessSignal) || attempt.phase == Working(ProcessSignal)
        ==> Replayable(attempt.claimed))
    && (attempt.phase == Binding(ResumeTask) || attempt.phase == Working(ResumeTask)
        ==> Resumable(attempt.claimed, attempt.key.tenant))
  }

  /** Whether some later claim took this attempt's run. */
  predicate Overtaken(world: World, i: nat)
    requires i < |world.attempts|
  {
    world.attempts[i].key in world.latest && world.latest[world.attempts[i].key] != i
  }

  predicate LatestInv(world: World) {
    && (forall key :: key in world.latest ==>
          && key in world.rows
          && world.latest[key] < |world.attempts|
          && world.attempts[world.latest[key]].key == key
          && (world.rows[key].owner.Some? ==> world.rows[key].owner.value == world.attempts[world.latest[key]].worker))
    && (forall i :: 0 <= i < |world.attempts| ==> world.attempts[i].key in world.latest)
    && (forall i :: 0 <= i < |world.attempts| && Overtaken(world, i) ==>
          world.attempts[i].claimed.version < world.rows[world.attempts[i].key].version)
  }

  predicate Inv(world: World) {
    && LatestInv(world)
    && (forall i :: 0 <= i < |world.attempts| ==> AttemptInv(world.attempts[i], world.rows[world.attempts[i].key]))
  }

  lemma ReadEarlierSurvives(attempt: Attempt, row: Row, write: Write)
    requires AttemptInv(attempt, row)
    ensures AttemptInv(attempt, Apply(row, write))
  {
  }

  function ActedRow(attempt: Attempt, row: Row, act: Act): Row {
    match WriteOf(attempt, act) case Some(write) => Apply(row, write) case None => row
  }

  /** The act keeps the attempt's invariant over the row it leaves, and the attempt's identity. */
  predicate ActKeeps(attempt: Attempt, row: Row, act: Act) {
    var after := After(attempt, row, act);
    && AttemptInv(after, ActedRow(attempt, row, act))
    && after.key == attempt.key && after.worker == attempt.worker && after.claimed == attempt.claimed
  }

  lemma WriteActKeeps(attempt: Attempt, row: Row, act: Act)
    requires AttemptInv(attempt, row) && act.WriteLands?
    ensures ActKeeps(attempt, row, act)
  {
  }

  lemma MainActKeeps(attempt: Attempt, row: Row, act: Act)
    requires AttemptInv(attempt, row) && (act.BindingReturns? || act.BindingRejects? || act.CallLost? || act.WorkEnds?
                                          || act.ReadsLast?)
    ensures ActKeeps(attempt, row, act)
  {
  }

  lemma ReleaseActKeeps(attempt: Attempt, row: Row, act: Act)
    requires AttemptInv(attempt, row) && (act.ReadsForRelease? || act.ReleaseLands?)
    ensures ActKeeps(attempt, row, act)
  {
  }

  lemma BeatReadKeeps(attempt: Attempt, row: Row, act: Act)
    requires AttemptInv(attempt, row) && act.BeatReads?
    ensures ActKeeps(attempt, row, act)
  {
  }

  lemma BeatActKeeps(attempt: Attempt, row: Row, act: Act)
    requires AttemptInv(attempt, row) && (act.BeatFires? || act.BeatFails?)
    ensures ActKeeps(attempt, row, act)
  {
  }

  lemma RenewActKeeps(attempt: Attempt, row: Row, act: Act)
    requires AttemptInv(attempt, row) && act.RenewLands?
    ensures ActKeeps(attempt, row, act)
  {
  }

  lemma SettleActKeeps(attempt: Attempt, row: Row, act: Act)
    requires AttemptInv(attempt, row) && (act.Settles? || act.DrainAborts?)
    ensures ActKeeps(attempt, row, act)
  {
  }

  lemma AfterKeepsAttemptInv(attempt: Attempt, row: Row, act: Act)
    requires AttemptInv(attempt, row)
    ensures ActKeeps(attempt, row, act)
  {
    match act
    case WriteLands(_) => WriteActKeeps(attempt, row, act);
    case ReadsForRelease => ReleaseActKeeps(attempt, row, act);
    case ReleaseLands(_) => ReleaseActKeeps(attempt, row, act);
    case BeatFires => BeatActKeeps(attempt, row, act);
    case BeatReads(_) => BeatReadKeeps(attempt, row, act);
    case BeatFails => BeatActKeeps(attempt, row, act);
    case RenewLands(_, _, _, _, _) => RenewActKeeps(attempt, row, act);
    case Settles => SettleActKeeps(attempt, row, act);
    case DrainAborts => SettleActKeeps(attempt, row, act);
    case _ => MainActKeeps(attempt, row, act);
  }

  /** A write that grants no lease keeps the invariant of everyone else and of the table. */
  lemma WriteKeepsInv(world: World, key: Key, write: Write)
    requires Inv(world) && !write.Claim?
    ensures Inv(world.(rows := ApplyAt(world.rows, key, write)))
  {
    var next := world.(rows := ApplyAt(world.rows, key, write));
    forall i | 0 <= i < |world.attempts| ensures AttemptInv(next.attempts[i], next.rows[next.attempts[i].key]) {
      ReadEarlierSurvives(world.attempts[i], world.rows[world.attempts[i].key], write);
    }
  }

  lemma ClaimKeepsLatest(world: World, step: Step)
    requires Inv(world) && step.Claims? && step.key in world.rows && world.rows[step.key].Claimable(step.dbNow)
    ensures LatestInv(Next(world, step))
  {
    var next := Next(world, step);
    forall i | 0 <= i < |next.attempts| && Overtaken(next, i)
      ensures next.attempts[i].claimed.version < next.rows[next.attempts[i].key].version
    {
      assert i < |world.attempts|;
      assert AttemptInv(world.attempts[i], world.rows[world.attempts[i].key]);
      if world.attempts[i].key != step.key {
        assert Overtaken(world, i);
      }
    }
  }

  lemma FreshAttemptInv(row: Row, worker: Worker, key: Key, dbNow: Time, ttl: Time, registry: Registry)
    requires row.Claimable(dbNow)
    ensures var claimed := Apply(row, Claim(worker, dbNow, ttl));
            AttemptInv(Attempt(worker, key, claimed, FirstPhase(claimed, key.tenant, registry), Armed, false, false,
                               false), claimed)
  {
  }

  lemma ClaimKeepsInv(world: World, step: Step)
    requires Inv(world) && step.Claims? && step.key in world.rows && world.rows[step.key].Claimable(step.dbNow)
    ensures Inv(Next(world, step))
  {
    var next := Next(world, step);
    ClaimKeepsLatest(world, step);
    FreshAttemptInv(world.rows[step.key], step.worker, step.key, step.dbNow, step.ttl, step.registry);
    forall i | 0 <= i < |world.attempts| ensures AttemptInv(next.attempts[i], next.rows[next.attempts[i].key]) {
      ReadEarlierSurvives(world.attempts[i], world.rows[world.attempts[i].key],
                          Claim(step.worker, step.dbNow, step.ttl));
    }
  }

  /** An attempt moves on: its row is already written, its identity does not change. */
  lemma MoveKeepsInv(world: World, i: nat, attempt: Attempt)
    requires LatestInv(world) && i < |world.attempts|
    requires attempt.key == world.attempts[i].key && attempt.worker == world.attempts[i].worker
    requires attempt.claimed == world.attempts[i].claimed
    requires AttemptInv(attempt, world.rows[attempt.key])
    requires forall j ::
              0 <= j < |world.attempts| && j != i ==> AttemptInv(world.attempts[j], world.rows[world.attempts[j].key])
    ensures Inv(world.(attempts := world.attempts[i := attempt]))
  {
    var next := world.(attempts := world.attempts[i := attempt]);
    forall j | 0 <= j < |next.attempts| && Overtaken(next, j)
      ensures next.attempts[j].claimed.version < next.rows[next.attempts[j].key].version
    {
      assert Overtaken(world, j);
    }
  }

  lemma CrashKeepsInv(world: World, worker: Worker)
    requires Inv(world)
    ensures Inv(world.(attempts := Crash(world.attempts, worker)))
  {
    var next := world.(attempts := Crash(world.attempts, worker));
    forall j | 0 <= j < |next.attempts|
      ensures AttemptInv(next.attempts[j], next.rows[next.attempts[j].key])
    {
      assert AttemptInv(world.attempts[j], world.rows[world.attempts[j].key]);
    }
    forall j | 0 <= j < |next.attempts| && Overtaken(next, j)
      ensures next.attempts[j].claimed.version < next.rows[next.attempts[j].key].version
    {
      assert Overtaken(world, j);
    }
  }

  lemma NextKeepsInv(world: World, step: Step)
    requires Inv(world)
    ensures Inv(Next(world, step))
  {
    match step
    case Claims(worker, key, dbNow, ttl, registry) =>
      if key in world.rows && world.rows[key].Claimable(dbNow) {
        ClaimKeepsInv(world, step);
      }
    case Acts(i, act) =>
      if i < |world.attempts| && CanAct(world.attempts[i], act) {
        var attempt := world.attempts[i];
        var write := WriteOf(attempt, act);
        AfterKeepsAttemptInv(attempt, world.rows[attempt.key], act);
        if write.Some? {
          WriteKeepsInv(world, attempt.key, write.value);
          MoveKeepsInv(world.(rows := ApplyAt(world.rows, attempt.key, write.value)), i,
                       After(attempt, world.rows[attempt.key], act));
        } else {
          MoveKeepsInv(world, i, After(attempt, world.rows[attempt.key], act));
        }
      }
    case Crashes(worker) => CrashKeepsInv(world, worker);
    case Interferes(key, newState, newPayload, clearsLease) =>
      WriteKeepsInv(world, key, Foreign(newState, newPayload, clearsLease));
  }

  lemma {:induction false} RunKeepsInv(world: World, steps: seq<Step>)
    requires Inv(world)
    ensures Inv(Run(world, steps))
    decreases steps
  {
    if steps != [] {
      NextKeepsInv(world, steps[0]);
      RunKeepsInv(Next(world, steps[0]), steps[1..]);
    }
  }
}
