/** What each write of the worker means for the row: who holds it afterwards, until when, and what is kept. */
module WriteEffects {
  import opened DurableTasks
  import opened Options

  /** The worker, and nobody else, holds the row before a given time, and nobody from then on. */
  ghost predicate HeldUntil(row: Row, worker: Worker, until: Time) {
    forall other: Worker, now: Time :: row.LeaseHeld(other, now) <==> other == worker && now < until
  }

  ghost predicate HeldByNobody(row: Row) {
    forall other: Worker, now: Time :: !row.LeaseHeld(other, now)
  }

  /** No claim and no lease at once: from the time a row may be claimed, nobody holds it. */
  lemma ClaimableIsFree(row: Row, dbNow: Time, worker: Worker, now: Time)
    requires row.Claimable(dbNow) && dbNow <= now
    ensures !row.LeaseHeld(worker, now)
  {
  }

  /**
   Which rows a claim takes: never a finished one and never a parked one without an event; a queued one always; and
   a running one, or a parked one with an event, once its lease is over.
   */
  lemma ClaimTakesExactly(row: Row, worker: Worker, dbNow: Time, ttl: Time)
    ensures Outcome(row, Claim(worker, dbNow, ttl)).Written? <==>
            match row.state
            case Queued => true
            case Running => row.expiresAt.Some? && row.expiresAt.value < dbNow
            case Waiting =>
              row.payload.HasResumeKey() && (row.owner.Some? && row.expiresAt.Some? ==> row.expiresAt.value < dbNow)
            case AwaitingHuman =>
              row.payload.HasResumeKey() && (row.owner.Some? && row.expiresAt.Some? ==> row.expiresAt.value < dbNow)
            case _ => false
  {
  }

  /** A claim grants its worker the lease for its time; it keeps the payload, parked work parked, and runs the rest. */
  lemma ClaimGrantsTheLease(row: Row, worker: Worker, dbNow: Time, ttl: Time)
    requires Outcome(row, Claim(worker, dbNow, ttl)).Written?
    ensures var after := Apply(row, Claim(worker, dbNow, ttl));
            && HeldUntil(after, worker, dbNow + ttl) && after.payload == row.payload
            && after.state == (if row.state == Waiting || row.state == AwaitingHuman then row.state else Running)
            && forall at :: at <= dbNow + ttl ==> !after.Claimable(at)
  {
  }

  /** A fenced write goes through exactly if its worker holds the lease, nobody wrote since, and the state allows it. */
  lemma FencedAcceptedExactly(row: Row, write: Write)
    requires write.Fenced()
    ensures Outcome(row, write).Written? <==>
            row.LeaseHeld(write.worker, write.now) && row.version == write.expected &&
            match write
            case Renew(_, _, _, _, _) => true
            case Release(_, _, target, _) =>
              target == Queued || target == Waiting || (target == AwaitingHuman && row.payload.HasResumeKey())
            case RecordFatal(_, _, _) => row.state != AwaitingHuman
            case Park(_, _, checkpoint, _) => row.state != AwaitingHuman && checkpoint.Record? && checkpoint.complete
  {
  }

  /** A renewal moves the end of the lease and nothing else. */
  lemma RenewalExtends(row: Row, write: Write)
    requires write.Renew? && Outcome(row, write).Written?
    ensures var after := Apply(row, write);
            HeldUntil(after, write.worker, write.dbNow + write.ttl)
            && after.state == row.state && after.payload == row.payload && after.owner == row.owner
  {
  }

  /** A release leaves the row to nobody in the state asked for, with its payload. */
  lemma ReleaseFrees(row: Row, write: Write)
    requires write.Release? && Outcome(row, write).Written?
    ensures var after := Apply(row, write);
            && HeldByNobody(after) && after.state == write.target && after.payload == row.payload
            && (write.target == Queued || row.payload.HasResumeKey() ==> forall at :: after.Claimable(at))
  {
  }

  /** A recorded failure ends the row: nobody holds it and nobody can ever claim it. */
  lemma FailureIsFinal(row: Row, write: Write, at: Time, later: Write)
    requires write.RecordFatal? && Outcome(row, write).Written?
    ensures var after := Apply(row, write);
            && after.state == Failed && after.payload == row.payload && HeldByNobody(after) && !after.Claimable(at)
            && (!later.Foreign? ==> Outcome(after, later).Refused?)
  {
  }

  /** Parking keeps the lease, takes the checkpoint, and leaves a waiting row that only an event makes claimable. */
  lemma ParkingWaits(row: Row, write: Write)
    requires write.Park? && Outcome(row, write).Written?
    ensures var after := Apply(row, write);
            && after.state == Waiting && after.payload == write.checkpoint
            && after.owner == row.owner && after.expiresAt == row.expiresAt
            && (!write.checkpoint.HasResumeKey() ==> forall at :: !after.Claimable(at))
  {
  }

  /** Which refusal a fenced write meets, and that a refusal changes nothing. */
  lemma RefusalsAreNamed(row: Row, write: Write)
    requires write.Fenced() && Outcome(row, write).Refused?
    ensures Apply(row, write) == row
    ensures var held, current := row.LeaseHeld(write.worker, write.now), row.version == write.expected;
            var finished := row.state == Completed || row.state == Stopped || row.state == Failed;
            match Outcome(row, write).error
            case LeaseNotHeld =>
              !held && (!write.Renew? && !write.Release? ==> current && !finished && row.state != AwaitingHuman)
            case VersionConflict => !current && (write.Renew? || write.Release? ==> held)
            case ReleaseStateInvalid => write.Release? && held && current
            case AlreadyTerminal => finished && (write.RecordFatal? || write.Park?)
            case NotProgressable => row.state == AwaitingHuman && (write.RecordFatal? || write.Park?)
            case CheckpointIncomplete => write.Park? && !(write.checkpoint.Record? && write.checkpoint.complete)
            case NotClaimable => false
  {
  }
}
