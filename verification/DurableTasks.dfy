/**
 The durable task row of one run and every write the worker issues against it.

 Each write locks the row, compares what its caller presents and increments
 `task_version`; a refused write changes nothing. Two clocks appear because the
 code uses two: `dbNow` is the transaction time of the database, `now` the clock
 of the worker process that checks the lease. Nothing relates them here.
 */
module DurableTasks {
  import opened Options

  type Worker = string

  /** Milliseconds. */
  type Time = real

  datatype TaskState = Queued | Running | Waiting | AwaitingHuman | Completed | Stopped | Failed

  /** The `resume_event` member: absent, present but not a record, or a record. */
  datatype ResumeSlot = NoEvent | NotARecord | Event(tenant: Option<string>, eventType: Option<string>, detail: nat)

  /**
   `state_payload`. `mutatingPending` says that `pending_action` is an object whose
   `mutating` is `true`; `complete` says that the record passes the checkpoint check,
   which does not look at `resume_event`; `moduleName` is `signal.payload.module`.
   */
  datatype Payload =
    | Opaque
    | Record(resume: ResumeSlot, mutatingPending: bool, complete: bool, moduleName: Option<string>, rest: nat)
  {
    predicate HasResumeKey() { Record? && resume != NoEvent }
    predicate HasResumeEvent() { Record? && resume.Event? }
    predicate HasMutatingPending() { Record? && mutatingPending }
  }

  datatype Row = Row(state: TaskState, version: nat, owner: Option<Worker>, expiresAt: Option<Time>, payload: Payload)
  {
    predicate Parked() { state == Waiting || state == AwaitingHuman }
    predicate Terminal() { state == Completed || state == Stopped || state == Failed }

    /** The lease guard every fenced write checks on the locked row. */
    predicate LeaseHeld(worker: Worker, now: Time) {
      && (state == Running || Parked())
      && owner == Some(worker)
      && expiresAt.Some?
      && expiresAt.value > now
    }

    /** The rows a claim may take: queued, running with an expired lease, or parked with an event and no live lease. */
    predicate Claimable(dbNow: Time) {
      || state == Queued
      || (state == Running && expiresAt.Some? && expiresAt.value < dbNow)
      || (Parked() && payload.HasResumeKey()
          && (owner.None? || expiresAt.None? || expiresAt.value < dbNow))
    }
  }

  datatype StoreError =
    | NotClaimable | LeaseNotHeld | VersionConflict | AlreadyTerminal | NotProgressable
    | ReleaseStateInvalid | CheckpointIncomplete

  datatype WriteResult = Written(row: Row) | Refused(error: StoreError)

  /**
   One write reaching the database. `Foreign` is any other writer of the row (operator, approval,
   orchestrator checkpoint): it increments the version, and it keeps or clears the lease, never grants one.
   */
  datatype Write =
    | Claim(worker: Worker, dbNow: Time, ttl: Time)
    | Renew(worker: Worker, expected: nat, now: Time, dbNow: Time, ttl: Time)
    | Release(worker: Worker, expected: nat, target: TaskState, now: Time)
    | RecordFatal(worker: Worker, expected: nat, now: Time)
    | Park(worker: Worker, expected: nat, checkpoint: Payload, now: Time)
    | Foreign(newState: TaskState, newPayload: Payload, clearsLease: bool)
  {
    /** The writes that present a lease owner and an expected version. */
    predicate Fenced() { Renew? || Release? || RecordFatal? || Park? }
  }

  /** What the database does with a write, in the order the refusals fire. */
  function Outcome(row: Row, write: Write): (result: WriteResult)
    ensures result.Written? ==> result.row.version == row.version + 1
    ensures result.Written? && !write.Claim? ==> result.row.owner == row.owner || result.row.owner == None
    ensures result.Written? && write.Fenced() ==> row.owner == Some(write.worker) && row.version == write.expected
  {
    match write
    case Claim(worker, dbNow, ttl) =>
      if !row.Claimable(dbNow) then Refused(NotClaimable)
      else Written(Row(if row.Parked() then row.state else Running, row.version + 1,
                       Some(worker), Some(dbNow + ttl), row.payload))
    case Renew(worker, expected, now, dbNow, ttl) =>
      if !row.LeaseHeld(worker, now) then Refused(LeaseNotHeld)
      else if row.version != expected then Refused(VersionConflict)
      else Written(row.(version := row.version + 1, expiresAt := Some(dbNow + ttl)))
    case Release(worker, expected, target, now) =>
      if !row.LeaseHeld(worker, now) then Refused(LeaseNotHeld)
      else if row.version != expected then Refused(VersionConflict)
      else if target != Queued && target != Waiting && target != AwaitingHuman then Refused(ReleaseStateInvalid)
      else if target == AwaitingHuman && !row.payload.HasResumeKey() then Refused(ReleaseStateInvalid)
      else Written(Row(target, row.version + 1, None, None, row.payload))
    case RecordFatal(worker, expected, now) =>
      if row.Terminal() then Refused(AlreadyTerminal)
      else if row.state == AwaitingHuman then Refused(NotProgressable)
      else if row.version != expected then Refused(VersionConflict)
      else if !row.LeaseHeld(worker, now) then Refused(LeaseNotHeld)
      else Written(Row(Failed, row.version + 1, None, None, row.payload))
    case Park(worker, expected, checkpoint, now) =>
      if !checkpoint.Record? || !checkpoint.complete then Refused(CheckpointIncomplete)
      else if row.Terminal() then Refused(AlreadyTerminal)
      else if row.state == AwaitingHuman then Refused(NotProgressable)
      else if row.version != expected then Refused(VersionConflict)
      else if !row.LeaseHeld(worker, now) then Refused(LeaseNotHeld)
      else Written(row.(state := Waiting, version := row.version + 1, payload := checkpoint))
    case Foreign(newState, newPayload, clearsLease) =>
      Written(Row(newState, row.version + 1,
                  if clearsLease then None else row.owner,
                  if clearsLease then None else row.expiresAt, newPayload))
  }

  /** The row after a write: a refused write leaves it alone. */
  function Apply(row: Row, write: Write): (after: Row)
    ensures after == row || after.version == row.version + 1
  {
    match Outcome(row, write)
    case Written(after) => after
    case Refused(_) => row
  }

  /** The row after any number of writes by any writers. */
  function Play(row: Row, writes: seq<Write>): Row
    decreases writes
  {
    if writes == [] then row else Play(Apply(row, writes[0]), writes[1..])
  }

  /** Versions never go back, and a version seen again means that nothing was written in between. */
  lemma {:induction false} VersionIdentifiesRow(row: Row, writes: seq<Write>)
    ensures Play(row, writes).version >= row.version
    ensures Play(row, writes).version == row.version ==> Play(row, writes) == row
    decreases writes
  {
    if writes != [] {
      VersionIdentifiesRow(Apply(row, writes[0]), writes[1..]);
    }
  }

  /**
   A row read by anyone is never confused with a later one: a guarded write that takes effect
   after any interference finds exactly the row its version was read from.
   */
  lemma {:induction false} GuardedWriteIsAtomic(read: Row, between: seq<Write>, write: Write)
    requires write.Fenced() && write.expected == read.version
    ensures Outcome(Play(read, between), write).Written?
            ==> Play(read, between) == read && read.owner == Some(write.worker)
  {
    VersionIdentifiesRow(read, between);
  }

  /**
   A claim anywhere between a read and the write based on it dooms that write, whoever claimed and
   whoever holds the lease when it arrives.
   */
  lemma {:induction false} ClaimDoomsEarlierReads(read: Row, before: seq<Write>, claim: Write, after: seq<Write>,
                                                  write: Write)
    requires claim.Claim? && Outcome(Play(read, before), claim).Written?
    requires write.Fenced() && write.expected == read.version
    ensures Outcome(Play(Apply(Play(read, before), claim), after), write).Refused?
  {
    VersionIdentifiesRow(read, before);
    VersionIdentifiesRow(Apply(Play(read, before), claim), after);
  }
}
