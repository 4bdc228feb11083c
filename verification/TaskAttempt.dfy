/**
 One attempt at a claimed task: which branch it takes, what it may do to the row, and how it gives
 the lease back. Other writers may reach the database at every await; the methods below take what
 they wrote there as an argument, so their contracts hold for every interleaving.
 */
module TaskAttempt {
  import opened Options
  import opened DurableTasks

  type Tenant = string

  datatype Key = Key(tenant: Tenant, run: string)

  const RESUME_EVENT_TYPES: set<string> := {
    "human.approval", "human.modify", "human.reject", "human.pause", "human.cancel", "human.reconcile",
    "timer.expired", "reconcile.completed", "human.handoff.evidence",
    "handoff.marketing_to_sales", "handoff.sales_to_care", "handoff.care_to_retention"
  }

  datatype FailureCode =
    | ResumeEventInvalid | CheckpointIncompleteCode | SignalInvalid
    | CapabilityNotEnabled | ContractRefused | OrchestratorUnbound

  datatype Work = ResumeTask | ProcessSignal

  /** What an attempt does first with the row it claimed. */
  datatype Decision = LeaveParked | Fail(code: FailureCode) | ParkUnknownEffect | Bind(work: Work)

  /** The modules with a binding, and whether the binding of this row's module admits its signal. */
  datatype Registry = Registry(enabled: set<string>, accepts: bool)

  /**
   The branches of `processClaimedTask`, in order. Each execution starts from exactly the rows it is
   meant for, and an effect in doubt is parked on exactly the rows that carry one without an event.
   */
  function Decide(claimed: Row, tenant: Tenant, registry: Registry): (decision: Decision)
    ensures (decision == Bind(ProcessSignal))
         == (Replayable(claimed) && claimed.payload.moduleName.value in registry.enabled && registry.accepts)
    ensures (decision == Bind(ResumeTask))
         == (Resumable(claimed, tenant) && claimed.payload.moduleName.value in registry.enabled)
    ensures (decision == ParkUnknownEffect)
         == (!claimed.Parked() && !claimed.payload.HasResumeKey() && claimed.payload.HasMutatingPending())
    ensures (decision == LeaveParked) == (claimed.Parked() && !claimed.payload.HasResumeEvent())
  {
    var payload := claimed.payload;
    if claimed.Parked() && !payload.HasResumeEvent() then LeaveParked
    else if payload.HasResumeKey() then
      if !payload.resume.Event? || payload.resume.tenant != Some(tenant)
         || payload.resume.eventType.None? || payload.resume.eventType.value !in RESUME_EVENT_TYPES
            then Fail(ResumeEventInvalid)
      else if !payload.complete then Fail(CheckpointIncompleteCode)
      else if payload.moduleName.None? || payload.moduleName.value == "" then Fail(SignalInvalid)
      else if payload.moduleName.value !in registry.enabled then Fail(CapabilityNotEnabled)
      else Bind(ResumeTask)
    else if payload.HasMutatingPending() then ParkUnknownEffect
    else if payload.Opaque? || payload.moduleName.None? then Fail(SignalInvalid)
    else if payload.moduleName.value !in registry.enabled then Fail(CapabilityNotEnabled)
    else if !registry.accepts then Fail(ContractRefused)
    else Bind(ProcessSignal)
  }

  /** A row whose original signal may be executed: nothing parked, no event, no mutating action in doubt. */
  predicate Replayable(row: Row) {
    && !row.Parked()
    && row.payload.Record?
    && row.payload.resume == NoEvent
    && !row.payload.mutatingPending
    && row.payload.moduleName.Some?
  }

  /** A row that may be resumed: a same-tenant event of a known type on a complete checkpoint. */
  predicate Resumable(row: Row, tenant: Tenant) {
    && row.payload.HasResumeEvent()
    && row.payload.resume.tenant == Some(tenant)
    && row.payload.resume.eventType.Some?
    && row.payload.resume.eventType.value in RESUME_EVENT_TYPES
    && row.payload.complete
    && row.payload.moduleName.Some? && row.payload.moduleName.value != ""
  }

  /** Whether the end of an attempt tries to give the lease back, from the row it reads there. */
  predicate MayRelease(claimed: Row, current: Option<Row>) {
    || claimed.payload.HasResumeEvent()
    || current.None?
    || current.value.payload.HasResumeEvent()
    || !current.value.payload.HasMutatingPending()
  }

  /** An attempt that began with an event, or on a parked row, may release a parked row without one. */
  predicate ReleasesParked(claimed: Row) {
    claimed.payload.HasResumeEvent() || claimed.Parked()
  }

  /** The state a release asks for, or `None` when the row is not this worker's to release. */
  function ReleaseTarget(row: Row, worker: Worker, releaseParked: bool): Option<TaskState> {
    if row.owner != Some(worker) then None
    else if row.state != Running && !(row.Parked() && (row.payload.HasResumeEvent() || releaseParked)) then None
    else if row.state == AwaitingHuman then Some(AwaitingHuman)
    else if row.state == Waiting then Some(Waiting)
    else Some(Queued)
  }

  type Rows = map<Key, Row>

  /** The table after writes of any runs by any writers; a write to a missing row changes nothing. */
  function PlayAll(rows: Rows, writes: seq<(Key, Write)>): Rows
    decreases writes
  {
    if writes == [] then rows
    else PlayAll(ApplyAt(rows, writes[0].0, writes[0].1), writes[1..])
  }

  function ApplyAt(rows: Rows, key: Key, write: Write): Rows {
    if key in rows then rows[key := Apply(rows[key], write)] else rows
  }

  lemma {:induction false} PlayAllAppend(rows: Rows, first: seq<(Key, Write)>, second: seq<(Key, Write)>)
    ensures PlayAll(rows, first + second) == PlayAll(PlayAll(rows, first), second)
    decreases first
  {
    if first == [] {
      assert first + second == second;
    } else {
      assert (first + second)[1..] == first[1..] + second;
      PlayAllAppend(ApplyAt(rows, first[0].0, first[0].1), first[1..], second);
    }
  }

  function RowAfter(rows: Rows, writes: seq<(Key, Write)>, key: Key): Option<Row> {
    var after := PlayAll(rows, writes);
    if key in after then Some(after[key]) else None
  }

  /** Rows are never deleted, and each row's version identifies it over any such history. */
  lemma {:induction false} PlayAllRow(rows: Rows, writes: seq<(Key, Write)>, key: Key)
    ensures key in PlayAll(rows, writes) <==> key in rows
    ensures key in rows ==> PlayAll(rows, writes)[key].version >= rows[key].version
    ensures key in rows && PlayAll(rows, writes)[key].version == rows[key].version
            ==> PlayAll(rows, writes)[key] == rows[key]
    decreases writes
  {
    if writes != [] {
      PlayAllRow(ApplyAt(rows, writes[0].0, writes[0].1), writes[1..], key);
    }
  }

  /** The task table as the worker reaches it: one transaction per call. */
  class WorkflowRepository {
    var rows: Rows

    method GetTask(key: Key) returns (row: Option<Row>)
      ensures row == if key in rows then Some(rows[key]) else None
    {
      if key in rows { row := Some(rows[key]); } else { row := None; }
    }

    method Execute(key: Key, write: Write) returns (result: WriteResult)
      requires key in rows
      modifies this
      ensures rows == ApplyAt(old(rows), key, write)
      ensures result == Outcome(old(rows)[key], write)
      ensures result.Refused? ==> rows == old(rows)
    {
      result := Outcome(rows[key], write);
      if result.Written? {
        rows := rows[key := result.row];
      }
    }

    /** Everything other writers do while the caller awaits. */
    method Interfere(writes: seq<(Key, Write)>)
      modifies this
      ensures rows == PlayAll(old(rows), writes)
    {
      for i := 0 to |writes|
        invariant PlayAll(rows, writes[i..]) == PlayAll(old(rows), writes)
      {
        var (key, write) := writes[i];
        assert writes[i..][1..] == writes[i + 1..];
        if key in rows {
          var _ := Execute(key, write);
        }
      }
    }
  }

  /** How a call reaches the database: answered, carried out with the answer lost, or lost on its way. */
  datatype Delivery = Heard | Unheard | Unsent

  /** `CallLost` is an error of the connection, which is rethrown like any other unknown error. */
  datatype ReleaseOutcome = Released | NotReleased | Rethrown(error: StoreError) | CallLost

  /**
   A release by one atomic step on the row it finds. It gives the lease up, never touches the payload,
   requeues running work only and leaves parked work parked.
   */
  function AtomicRelease(row: Row, worker: Worker, releaseParked: bool, now: Time): (after: Option<Row>)
    ensures after.Some? ==>
              && row.LeaseHeld(worker, now)
              && after.value.owner.None? && after.value.expiresAt.None? && after.value.payload == row.payload
              && after.value.state == (if row.Parked() then row.state else Queued)
    ensures row.LeaseHeld(worker, now) && row.state == Running ==> after.Some?
  {
    var target := ReleaseTarget(row, worker, releaseParked);
    if target.None? then None
    else
      match Outcome(row, Release(worker, row.version, target.value, now))
      case Written(after) => Some(after)
      case Refused(_) => None
  }

  /**
   What a release may look like from outside when `between` reaches the database after its read: it
   releases, atomically, a row nobody has written since; it reports a lost race; or it rethrows.
   */
  function ReleaseResult(rows: Rows, key: Key, worker: Worker, releaseParked: bool, between: seq<(Key, Write)>,
                         now: Time)
    : (ReleaseOutcome, Rows)
  {
    if key !in rows || ReleaseTarget(rows[key], worker, releaseParked).None? then (NotReleased, rows)
    else
      var row, after := rows[key], PlayAll(rows, between);
      var released := AtomicRelease(row, worker, releaseParked, now);
      if RowAfter(rows, between, key) != Some(row) || !row.LeaseHeld(worker, now) then (NotReleased, after)
      else if released.Some? then (Released, after[key := released.value])
      else (Rethrown(ReleaseStateInvalid), after)
  }

  /**
   The same with calls that may be lost: a release that is not sent
   does nothing, one that is not heard may have released.
   */
  function DeliveredRelease(rows: Rows, key: Key, worker: Worker, releaseParked: bool, between: seq<(Key, Write)>,
                            now: Time,
                            readFails: bool, delivery: Delivery)
    : (ReleaseOutcome, Rows)
  {
    if readFails then (CallLost, rows)
    else if key !in rows || ReleaseTarget(rows[key], worker, releaseParked).None? then (NotReleased, rows)
    else
      match delivery
      case Heard => ReleaseResult(rows, key, worker, releaseParked, between, now)
      case Unheard => (CallLost, ReleaseResult(rows, key, worker, releaseParked, between, now).1)
      case Unsent => (CallLost, PlayAll(rows, between))
  }

  /** Reads the row, decides, and releases by compare-and-set, with `between` reaching the database in between. */
  method ReleaseLeaseIfHeld(repository: WorkflowRepository, key: Key, worker: Worker, releaseParked: bool,
                            between: seq<(Key, Write)>, now: Time, readFails: bool, delivery: Delivery)
    returns (outcome: ReleaseOutcome)
    modifies repository
    ensures (outcome, repository.rows)
         == DeliveredRelease(old(repository.rows), key, worker, releaseParked, between, now, readFails, delivery)
  {
    if readFails {
      return CallLost;
    }
    var task := repository.GetTask(key);
    if task.None? || task.value.owner != Some(worker) {
      return NotReleased;
    }
    var target := ReleaseTarget(task.value, worker, releaseParked);
    if target.None? {
      return NotReleased;
    }
    PlayAllRow(repository.rows, between, key);
    repository.Interfere(between);
    if delivery.Unsent? {
      return CallLost;
    }
    var result := repository.Execute(key, Release(worker, task.value.version, target.value, now));
    if delivery.Unheard? {
      return CallLost;
    }
    match result
    case Written(_) => outcome := Released;
    case Refused(VersionConflict) => outcome := NotReleased;
    case Refused(LeaseNotHeld) => outcome := NotReleased;
    case Refused(error) => outcome := Rethrown(error);
  }

  /**
   The documented promise that a consumed event lets its parked lease go holds for `waiting` and fails
   for `awaiting_human`: with nobody interfering, a held and releasable lease is given back if and only
   if the row is not awaiting a human or still carries the event; otherwise the error escapes.
   */
  lemma ReleaseFailsExactlyOnConsumedAwaitingRow(rows: Rows, key: Key, worker: Worker, releaseParked: bool, now: Time)
    requires key in rows && rows[key].LeaseHeld(worker, now)
    requires ReleaseTarget(rows[key], worker, releaseParked).Some?
    ensures var outcome := ReleaseResult(rows, key, worker, releaseParked, [], now).0;
            && (outcome == Released <==> rows[key].state != AwaitingHuman || rows[key].payload.HasResumeKey())
            && (outcome != Released ==> outcome == Rethrown(ReleaseStateInvalid))
  {
  }

  datatype Call = RecordFailure(code: FailureCode) | ParkWaiting | Execute(work: Work)

  /** What an orchestrator factory does: yields one, yields none, or rejects. */
  datatype Binding = Bound | Unbound | Rejects

  /**
   What an attempt meets: the registry, what its factory does, the stage at which its signal aborts
   (0 before the work, 1 at its end, 2 after the last read, later never), how its own write and its
   release are delivered and whether its two reads fail, the clock readings, and what other writers do
   at each await. The orchestrator's own writes are in `duringWork`.
   */
  datatype Environment = Environment(
    registry: Registry, binding: Binding, abortStage: nat,
    ownWrite: Delivery, lastReadFails: bool, releaseReadFails: bool, release: Delivery,
    writeClock: Time, releaseClock: Time,
    duringBinding: seq<(Key, Write)>, beforeWrite: seq<(Key, Write)>, duringWork: seq<(Key, Write)>,
    beforeFinalRead: seq<(Key, Write)>, betweenReads: seq<(Key, Write)>, beforeRelease: seq<(Key, Write)>)

  /** The one thing an attempt does with its row, if any. */
  function ExpectedCalls(claimed: Row, tenant: Tenant, env: Environment): seq<Call> {
    match Decide(claimed, tenant, env.registry)
    case LeaveParked => []
    case Fail(code) => [RecordFailure(code)]
    case ParkUnknownEffect => [ParkWaiting]
    case Bind(work) =>
      if env.binding.Rejects? then []
      else if env.binding.Unbound? then [RecordFailure(OrchestratorUnbound)]
      else if env.abortStage == 0 then []
      else [Execute(work)]
  }

  /** A record with an event of a known type for the same tenant. */
  predicate SameTenantEvent(payload: Payload, tenant: Tenant) {
    && payload.Record? && payload.resume.Event? && payload.resume.tenant == Some(tenant)
    && payload.resume.eventType.Some? && payload.resume.eventType.value in RESUME_EVENT_TYPES
  }

  /** An unparked record without an event. */
  predicate PlainSignal(row: Row) {
    row.state != Waiting && row.state != AwaitingHuman && row.payload.Record? && row.payload.resume.NoEvent?
  }

  /** The row names a module that has a binding. */
  predicate NamesModule(row: Row, registry: Registry) {
    row.payload.Record? && row.payload.moduleName.Some? && row.payload.moduleName.value in registry.enabled
  }

  /** The row's original signal may be replayed, as far as the row and the registry go. */
  predicate MayReplay(row: Row, registry: Registry) {
    PlainSignal(row) && !row.payload.mutatingPending && NamesModule(row, registry) && registry.accepts
  }

  /** The row may be resumed by its event. */
  predicate MayResume(row: Row, tenant: Tenant, registry: Registry) {
    && SameTenantEvent(row.payload, tenant) && row.payload.complete && NamesModule(row, registry)
    && row.payload.moduleName != Some("")
  }

  /**
   What an attempt calls, in terms of the row it claimed: at most one thing, the original signal or the resume
   each on exactly the rows meant for it, parking on exactly the rows in doubt, and each failure for its own cause.
   */
  predicate CallsMatch(calls: seq<Call>, row: Row, tenant: Tenant, env: Environment) {
    var payload, registry := row.payload, env.registry;
    var runs := env.binding.Bound? && env.abortStage > 0;
    && |calls| <= 1
    && (Execute(ProcessSignal) in calls <==> MayReplay(row, registry) && runs)
    && (Execute(ResumeTask) in calls <==> MayResume(row, tenant, registry) && runs)
    && (ParkWaiting in calls <==> PlainSignal(row) && payload.mutatingPending)
    && (RecordFailure(OrchestratorUnbound) in calls <==>
          (MayReplay(row, registry) || MayResume(row, tenant, registry)) && env.binding.Unbound?)
    && (RecordFailure(ContractRefused) in calls <==>
          PlainSignal(row) && !payload.mutatingPending && NamesModule(row, registry) && !registry.accepts)
    && FailuresMatch(calls, row, tenant, registry)
  }

  /** The failures of the row itself. A parked row without an event is left alone. */
  predicate FailuresMatch(calls: seq<Call>, row: Row, tenant: Tenant, registry: Registry) {
    var payload := row.payload;
    var parked, event := row.state == Waiting || row.state == AwaitingHuman, SameTenantEvent(row.payload, tenant);
    && (RecordFailure(ResumeEventInvalid) in calls <==>
          payload.Record? && !event && (payload.resume.Event? || (payload.resume.NotARecord? && !parked)))
    && (RecordFailure(CheckpointIncompleteCode) in calls <==> event && !payload.complete)
    && (RecordFailure(SignalInvalid) in calls <==>
          || (event && payload.complete && (payload.moduleName.None? || payload.moduleName.value == ""))
          || (PlainSignal(row) && !payload.mutatingPending && payload.moduleName.None?)
          || (payload.Opaque? && !parked))
    && (RecordFailure(CapabilityNotEnabled) in calls <==>
          && payload.Record? && payload.moduleName.Some? && !NamesModule(row, registry)
          && ((event && payload.complete && payload.moduleName.value != "")
              || (PlainSignal(row) && !payload.mutatingPending)))
  }

  lemma ExpectedCallsMatch(claimed: Row, tenant: Tenant, env: Environment)
    ensures CallsMatch(ExpectedCalls(claimed, tenant, env), claimed, tenant, env)
  {
    ExpectedFailuresMatch(claimed, tenant, env);
  }

  lemma ExpectedFailuresMatch(claimed: Row, tenant: Tenant, env: Environment)
    ensures FailuresMatch(ExpectedCalls(claimed, tenant, env), claimed, tenant, env.registry)
  {
  }

  /**
   The write of an attempt that reaches the database before its `finally`, always restating the version it claimed.
   */
  function OwnWrites(claimed: Row, key: Key, worker: Worker, env: Environment): (own: seq<(Key, Write)>)
    ensures forall i | 0 <= i < |own| ::
              own[i].0 == key && own[i].1.Fenced() && own[i].1.worker == worker && own[i].1.expected == claimed.version
  {
    var calls := ExpectedCalls(claimed, key.tenant, env);
    if calls == [] || calls[0].Execute? || env.ownWrite.Unsent? then []
    else if calls[0].RecordFailure? then [(key, RecordFatal(worker, claimed.version, env.writeClock))]
    else [(key, Park(worker, claimed.version, claimed.payload, env.writeClock))]
  }

  /** Everything that reaches the database before the `finally`. */
  function BodyWrites(claimed: Row, key: Key, worker: Worker, env: Environment): seq<(Key, Write)> {
    var calls := ExpectedCalls(claimed, key.tenant, env);
    (if Decide(claimed, key.tenant, env.registry).Bind? then env.duringBinding else [])
    + (if calls == [] then []
       else if calls[0].Execute? then env.duringWork
       else env.beforeWrite + OwnWrites(claimed, key, worker, env))
  }

  /** What the `finally` leaves: nothing once aborted, otherwise one release if the row it reads allows it. */
  function FinishResult(rows: Rows, key: Key, claimed: Row, worker: Worker, env: Environment)
    : (Option<ReleaseOutcome>, Rows)
  {
    if env.abortStage <= 1 then (None, rows)
    else
      var read := PlayAll(rows, env.beforeFinalRead);
      if env.lastReadFails || env.abortStage <= 2
         || !MayRelease(claimed, RowAfter(rows, env.beforeFinalRead, key)) then (None, read)
      else
        var result := DeliveredRelease(PlayAll(read, env.betweenReads), key, worker, ReleasesParked(claimed),
                                       env.beforeRelease, env.releaseClock, env.releaseReadFails, env.release);
        (Some(result.0), result.1)
  }

  /** The whole attempt. */
  function AttemptResult(rows: Rows, key: Key, claimed: Row, worker: Worker, env: Environment)
    : (Option<ReleaseOutcome>, Rows)
  {
    FinishResult(PlayAll(rows, BodyWrites(claimed, key, worker, env)), key, claimed, worker, env)
  }

  /** The body of the `try`. */
  method RunBody(repository: WorkflowRepository, key: Key, claimed: Row, worker: Worker, env: Environment)
    returns (calls: seq<Call>)
    requires key in repository.rows
    modifies repository
    ensures calls == ExpectedCalls(claimed, key.tenant, env) && CallsMatch(calls, claimed, key.tenant, env)
    ensures repository.rows == PlayAll(old(repository.rows), BodyWrites(claimed, key, worker, env))
  {
    calls := [];
    ExpectedCallsMatch(claimed, key.tenant, env);
    var decision := Decide(claimed, key.tenant, env.registry);
    var failure: Option<FailureCode> := None;
    if decision == LeaveParked {
      return;
    }
    if decision.Bind? {
      PlayAllRow(repository.rows, env.duringBinding, key);
      repository.Interfere(env.duringBinding);
      if env.binding.Rejects? {
        PlayAllAppend(old(repository.rows), env.duringBinding, []);
        return;
      }
      if env.binding.Bound? {
        PlayAllAppend(old(repository.rows), env.duringBinding, if env.abortStage == 0 then [] else env.duringWork);
        if env.abortStage == 0 {
          return;
        }
        repository.Interfere(env.duringWork);
        return [Execute(decision.work)];
      }
      failure := Some(OrchestratorUnbound);
    } else if decision.Fail? {
      failure := Some(decision.code);
    }
    ghost var rows := repository.rows;
    var write;
    if failure.Some? {
      calls, write := [RecordFailure(failure.value)], RecordFatal(worker, claimed.version, env.writeClock);
    } else {
      calls, write := [ParkWaiting], Park(worker, claimed.version, claimed.payload, env.writeClock);
    }
    PlayAllRow(repository.rows, env.beforeWrite, key);
    repository.Interfere(env.beforeWrite);
    if !env.ownWrite.Unsent? {
      var _ := repository.Execute(key, write);
    }
    ghost var own := OwnWrites(claimed, key, worker, env);
    assert own == if env.ownWrite.Unsent? then [] else [(key, write)];
    PlayAllAppend(rows, env.beforeWrite, own);
    PlayAllAppend(old(repository.rows), if decision.Bind? then env.duringBinding else [], env.beforeWrite + own);
  }

  /** One attempt from its claim to its end; the `finally` runs on every path. */
  method ProcessClaimedTask(repository: WorkflowRepository, key: Key, claimed: Row, worker: Worker, env: Environment)
    returns (calls: seq<Call>, release: Option<ReleaseOutcome>)
    requires key in repository.rows
    modifies repository
    ensures calls == ExpectedCalls(claimed, key.tenant, env) && CallsMatch(calls, claimed, key.tenant, env)
    ensures (release, repository.rows) == AttemptResult(old(repository.rows), key, claimed, worker, env)
  {
    release := None;
    calls := RunBody(repository, key, claimed, worker, env);
    if env.abortStage > 1 {
      repository.Interfere(env.beforeFinalRead);
      if env.lastReadFails {
        return;
      }
      var current := repository.GetTask(key);
      if env.abortStage > 2 && MayRelease(claimed, current) {
        repository.Interfere(env.betweenReads);
        var outcome := ReleaseLeaseIfHeld(repository, key, worker, ReleasesParked(claimed), env.beforeRelease,
                                          env.releaseClock,
                                          env.releaseReadFails, env.release);
        release := Some(outcome);
      }
    }
  }

  /** A mutating action whose effect is not known, and no event to settle it. */
  predicate InDoubt(row: Row) { row.payload.HasMutatingPending() && !row.payload.HasResumeEvent() }

  /** The table at the attempt's last read, and at the read its release decides on. */
  function AtLastRead(rows: Rows, key: Key, claimed: Row, worker: Worker, env: Environment): Rows {
    PlayAll(PlayAll(rows, BodyWrites(claimed, key, worker, env)), env.beforeFinalRead)
  }

  function AtReleaseRead(rows: Rows, key: Key, claimed: Row, worker: Worker, env: Environment): Rows {
    PlayAll(AtLastRead(rows, key, claimed, worker, env), env.betweenReads)
  }

  lemma {:induction false} KeyStays(rows: Rows, writes: seq<(Key, Write)>, key: Key)
    requires key in rows
    ensures key in PlayAll(rows, writes)
  {
    PlayAllRow(rows, writes, key);
  }

  lemma StillAtReads(rows: Rows, key: Key, claimed: Row, worker: Worker, env: Environment)
    requires key in rows
    ensures key in AtLastRead(rows, key, claimed, worker, env) && key in AtReleaseRead(rows, key, claimed, worker, env)
  {
    var body := PlayAll(rows, BodyWrites(claimed, key, worker, env));
    KeyStays(rows, BodyWrites(claimed, key, worker, env), key);
    KeyStays(body, env.beforeFinalRead, key);
    KeyStays(AtLastRead(rows, key, claimed, worker, env), env.betweenReads, key);
  }

  lemma StillThere(rows: Rows, key: Key, claimed: Row, worker: Worker, env: Environment)
    requires key in rows
    ensures key in AtLastRead(rows, key, claimed, worker, env) && key in AtReleaseRead(rows, key, claimed, worker, env)
    ensures key in PlayAll(AtReleaseRead(rows, key, claimed, worker, env), env.beforeRelease)
    ensures key in AttemptResult(rows, key, claimed, worker, env).1
  {
    StillAtReads(rows, key, claimed, worker, env);
    KeyStays(AtReleaseRead(rows, key, claimed, worker, env), env.beforeRelease, key);
    KeyStays(rows, BodyWrites(claimed, key, worker, env), key);
    StillFinished(PlayAll(rows, BodyWrites(claimed, key, worker, env)), key, claimed, worker, env);
  }

  lemma StillFinished(rows: Rows, key: Key, claimed: Row, worker: Worker, env: Environment)
    requires key in rows
    ensures key in FinishResult(rows, key, claimed, worker, env).1
  {
    var read := PlayAll(rows, env.beforeFinalRead);
    KeyStays(rows, env.beforeFinalRead, key);
    KeyStays(read, env.betweenReads, key);
    KeyStays(PlayAll(read, env.betweenReads), env.beforeRelease, key);
  }

  /**
   The row was not in doubt at the attempt's last read and was, running and leased to it, at the release's own
   read, and nobody wrote it after that; both reads went through.
   */
  predicate CameIntoDoubt(rows: Rows, key: Key, claimed: Row, worker: Worker, env: Environment)
    requires key in rows
  {
    StillThere(rows, key, claimed, worker, env);
    var read, basis := AtLastRead(rows, key, claimed, worker, env), AtReleaseRead(rows, key, claimed, worker, env);
    && env.abortStage > 2 && !env.lastReadFails && !env.releaseReadFails
    && !InDoubt(read[key]) && InDoubt(basis[key]) && basis[key].state == Running
    && basis[key].LeaseHeld(worker, env.releaseClock) && RowAfter(basis, env.beforeRelease, key) == Some(basis[key])
  }

  /** The attempt's release reached the row, whether or not it heard of it, and left it queued and in doubt. */
  predicate RequeuedInDoubt(rows: Rows, key: Key, claimed: Row, worker: Worker, env: Environment)
    requires key in rows
  {
    StillThere(rows, key, claimed, worker, env);
    var result := AttemptResult(rows, key, claimed, worker, env);
    var before := PlayAll(AtReleaseRead(rows, key, claimed, worker, env), env.beforeRelease);
    result.0.Some? && result.1[key].version == before[key].version + 1 && result.1[key].state == Queued
      && InDoubt(result.1[key])
  }

  /**
   An attempt that began without an event requeues a row in doubt if and only if the row came into doubt between
   its last two reads and its release was sent; it knows of it if and only if the release was heard as well.
   */
  lemma {:induction false} DoubtfulRequeueExactly(rows: Rows, key: Key, claimed: Row, worker: Worker, env: Environment)
    requires key in rows && !claimed.payload.HasResumeEvent()
    ensures RequeuedInDoubt(rows, key, claimed, worker, env)
       <==> CameIntoDoubt(rows, key, claimed, worker, env) && !env.release.Unsent?
    ensures var result := AttemptResult(rows, key, claimed, worker, env);
            key in result.1 &&
            ((result.0 == Some(Released) && result.1[key].state == Queued && InDoubt(result.1[key]))
             <==> CameIntoDoubt(rows, key, claimed, worker, env) && env.release.Heard?)
  {
    StillThere(rows, key, claimed, worker, env);
    var basis := AtReleaseRead(rows, key, claimed, worker, env);
    PlayAllRow(basis, env.beforeRelease, key);
  }

  /** So it takes a write between the two reads: an attempt whose last two reads agree never requeues a row in doubt. */
  lemma {:induction false} DoubtfulRequeueNeedsAnEventOrARace(rows: Rows, key: Key, claimed: Row, worker: Worker,
          env: Environment)
    requires key in rows && !claimed.payload.HasResumeEvent()
    requires AttemptResult(rows, key, claimed, worker, env).0 == Some(Released)
    ensures var read, after := AtLastRead(rows, key, claimed, worker, env),
            AttemptResult(rows, key, claimed, worker, env).1;
            key in read && key in after &&
            (RowAfter(read, env.betweenReads, key) == Some(read[key]) && after[key].payload.HasMutatingPending() ==>
               after[key].payload.HasResumeEvent())
  {
    StillThere(rows, key, claimed, worker, env);
  }

  /** The race is real: a checkpoint written between the two reads is requeued with its effect in doubt. */
  lemma {:induction false} DoubtfulRequeueByRace(key: Key, worker: Worker)
    ensures var claimed := Row(Running, 1, Some(worker), Some(10.0), Record(NoEvent, false, true, Some("support"), 0));
            var doubtful := Record(NoEvent, true, true, Some("support"), 0);
            var env := Environment(Registry({"support"}, true), Bound, 3, Heard, false, false, Heard, 0.0, 0.0, [], [],
                                   [], [],
                                   [(key, Foreign(Running, doubtful, false))], []);
            var result := AttemptResult(map[key := claimed], key, claimed, worker, env);
            && ExpectedCalls(claimed, key.tenant, env) == [Execute(ProcessSignal)]
            && result == (Some(Released), map[key := Row(Queued, 3, None, None, doubtful)])
  {
    var claimed := Row(Running, 1, Some(worker), Some(10.0), Record(NoEvent, false, true, Some("support"), 0));
    var write := (key, Foreign(Running, Record(NoEvent, true, true, Some("support"), 0), false));
    var env := Environment(Registry({"support"}, true), Bound, 3, Heard, false, false, Heard, 0.0, 0.0, [], [], [], [],
                           [write], []);
    assert BodyWrites(claimed, key, worker, env) == [];
    PlayOne(map[key := claimed], write);
    var raced := map[key := Row(Running, 2, Some(worker), Some(10.0), write.1.newPayload)];
    assert PlayAll(map[key := claimed], [write]) == raced;
    assert ReleaseResult(raced, key, worker, false, [], 0.0).0 == Released;
    assert ReleaseResult(raced, key, worker, false, [], 0.0).1
           == map[key := Row(Queued, 3, None, None, write.1.newPayload)];
  }

  lemma {:induction false} PlayOne(rows: Rows, write: (Key, Write))
    ensures PlayAll(rows, [write]) == ApplyAt(rows, write.0, write.1)
  {
    assert [write][1..] == [];
  }

  // ---- a row that fails its checks

  /**
   A claimed row that fails one of the checks, with its lease live and its failure record arriving first,
   ends as failed if and only if it is not awaiting a human: on an awaiting row the record is refused.
   */
  lemma {:induction false} RefusedRowFailsExactlyUnlessAwaiting(rows: Rows, key: Key, worker: Worker, env: Environment)
    requires key in rows && rows[key].LeaseHeld(worker, env.writeClock)
    requires Decide(rows[key], key.tenant, env.registry).Fail? && env.beforeWrite == [] && !env.ownWrite.Unsent?
    ensures var body := PlayAll(rows, BodyWrites(rows[key], key, worker, env));
            key in body && (body[key].state == Failed <==> rows[key].state != AwaitingHuman)
  {
    var claimed := rows[key];
    var write := RecordFatal(worker, claimed.version, env.writeClock);
    assert BodyWrites(claimed, key, worker, env) == [(key, write)];
    PlayOne(rows, (key, write));
  }

  /** One claim of the row and the attempt that follows it, undisturbed. */
  datatype Round = Round(worker: Worker, dbNow: Time, ttl: Time, env: Environment)

  function AfterRound(rows: Rows, key: Key, round: Round): Rows
    requires key in rows
  {
    var claimed := Apply(rows[key], Claim(round.worker, round.dbNow, round.ttl));
    AttemptResult(rows[key := claimed], key, claimed, round.worker, round.env).1
  }

  /** Nobody interferes, nothing is lost, the lease outlives the attempt, and the row fails a check. */
  predicate RefusingRound(row: Row, key: Key, round: Round) {
    && round.env.abortStage > 2
    && round.env.beforeWrite == round.env.beforeFinalRead == round.env.betweenReads == round.env.beforeRelease == []
    && !round.env.lastReadFails && !round.env.releaseReadFails && round.env.release.Heard?
    && round.env.releaseClock < round.dbNow + round.ttl
    && Decide(Apply(row, Claim(round.worker, round.dbNow, round.ttl)), key.tenant, round.env.registry).Fail?
  }

  /** An awaiting row whose event is not accepted, at rest. */
  predicate AwaitingWithEvent(row: Row) {
    row.state == AwaitingHuman && row.owner.None? && row.payload.HasResumeEvent()
  }

  /** After a round the failure record has bounced off the parked state, and the release has restored the row. */
  lemma {:induction false} RefusedRoundRestores(rows: Rows, key: Key, round: Round)
    requires key in rows && AwaitingWithEvent(rows[key]) && RefusingRound(rows[key], key, round)
    ensures AfterRound(rows, key, round) == rows[key := rows[key].(version := rows[key].version + 2, expiresAt := None)]
  {
    var worker, env := round.worker, round.env;
    var claimed := Apply(rows[key], Claim(worker, round.dbNow, round.ttl));
    var write := RecordFatal(worker, claimed.version, env.writeClock);
    var own := if env.ownWrite.Unsent? then [] else [(key, write)];
    assert BodyWrites(claimed, key, worker, env) == own;
    PlayOne(rows[key := claimed], (key, write));
    assert Outcome(claimed, write).Refused?;
    assert PlayAll(rows[key := claimed], own) == rows[key := claimed];
  }

  function AfterRounds(rows: Rows, key: Key, rounds: seq<Round>): Rows
    requires key in rows
    decreases rounds
  {
    if rounds == [] then rows
    else
      var after := AfterRound(rows, key, rounds[0]);
      if key in after then AfterRounds(after, key, rounds[1..]) else after
  }

  /** What a check decides on does not change from round to round: only the version and the expiry have moved. */
  lemma DecidesAlike(row: Row, later: Row, key: Key, round: Round)
    requires AwaitingWithEvent(row) && later == row.(version := later.version, expiresAt := None)
    ensures RefusingRound(later, key, round) <==> RefusingRound(row, key, round)
  {
  }

  /** The row at rest again, after so many writes. */
  function Bumped(row: Row, writes: nat): Row { row.(version := row.version + writes, expiresAt := None) }

  predicate AllRefuse(row: Row, key: Key, rounds: seq<Round>) {
    forall i :: 0 <= i < |rounds| ==> RefusingRound(row, key, rounds[i])
  }

  lemma RestRefuses(row: Row, key: Key, rounds: seq<Round>, writes: nat)
    requires AwaitingWithEvent(row) && rounds != [] && AllRefuse(row, key, rounds)
    ensures RefusingRound(row, key, rounds[0]) && AllRefuse(Bumped(row, writes), key, rounds[1..])
    ensures AwaitingWithEvent(Bumped(row, writes))
  {
    forall i | 0 <= i < |rounds[1..]| ensures RefusingRound(Bumped(row, writes), key, rounds[1..][i]) {
      DecidesAlike(row, Bumped(row, writes), key, rounds[i + 1]);
    }
  }

  lemma {:induction false} OneRoundMore(rows: Rows, key: Key, rounds: seq<Round>, next: Row, last: Row)
    requires key in rows && rounds != [] && AfterRound(rows, key, rounds[0]) == rows[key := next]
    requires rounds[1..] == [] ==> last == next
    requires rounds[1..] != [] ==> AfterRounds(rows[key := next], key, rounds[1..]) == rows[key := next][key := last]
    ensures AfterRounds(rows, key, rounds) == rows[key := last]
  {
    assert rows[key := next][key := last] == rows[key := last];
  }

  lemma {:induction false} RefusedRoundsRestore(rows: Rows, key: Key, rounds: seq<Round>)
    requires key in rows && AwaitingWithEvent(rows[key]) && rounds != [] && AllRefuse(rows[key], key, rounds)
    ensures AfterRounds(rows, key, rounds) == rows[key := Bumped(rows[key], 2 * |rounds|)]
    decreases rounds
  {
    var next := Bumped(rows[key], 2);
    RestRefuses(rows[key], key, rounds, 2);
    RefusedRoundRestores(rows, key, rounds[0]);
    if rounds[1..] != [] {
      RefusedRoundsRestore(rows[key := next], key, rounds[1..]);
      assert Bumped(next, 2 * |rounds[1..]|) == Bumped(rows[key], 2 * |rounds|);
    }
    OneRoundMore(rows, key, rounds, next, Bumped(rows[key], 2 * |rounds|));
  }

  /**
   So an awaiting row whose event is refused is never given up: after any number of claims and attempts,
   by any workers, it is the same row, two versions further for each, and claimable at every time.
   */
  lemma {:induction false} RefusedEventOnAwaitingRowIsRetriedForever(rows: Rows, key: Key, rounds: seq<Round>)
    requires key in rows && AwaitingWithEvent(rows[key]) && rounds != [] && AllRefuse(rows[key], key, rounds)
    ensures var after := AfterRounds(rows, key, rounds);
            && after == rows[key := rows[key].(version := rows[key].version + 2 * |rounds|, expiresAt := None)]
            && forall later :: after[key].Claimable(later)
  {
    RefusedRoundsRestore(rows, key, rounds);
  }
}
