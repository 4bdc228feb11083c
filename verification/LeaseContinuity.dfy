/**
 Why a healthy attempt keeps its run: the heartbeat renews every third of the lease, and as long as
 each round's delays stay under the other two thirds, no claim can ever find the lease expired.
 Times are those of the database.
 */
module LeaseContinuity {
  import opened Options
  import opened DurableTasks
  import Fleet

  /**
   One heartbeat round: from a renewal (or the claim) to the worker arming its timer, the lateness of
   that timer, and the time its read and its renewal take to land.
   */
  datatype Round = Round(respond: Time, late: Time, work: Time) {
    predicate NonNegative() { respond >= 0.0 && late >= 0.0 && work >= 0.0 }
    function Delay(): Time { respond + late + work }
    function Length(lease: Time): Time { lease / 3.0 + Delay() }
  }

  /** The row is leased to this worker, by a claim or renewal at `since`, and can be renewed. */
  predicate LeasedSince(row: Row, worker: Worker, since: Time, lease: Time) {
    (row.state == Running || row.Parked()) && row.owner == Some(worker) && row.expiresAt == Some(since + lease)
  }

  /**
   Over one round, no claim finds the row free if and only if the delays sum to at most two thirds of
   the lease. (A parked row without an event is never claimable, so it is excluded from the converse.)
   */
  lemma RoundIsSafeExactlyWithinTwoThirds(row: Row, worker: Worker, since: Time, lease: Time, round: Round)
    requires LeasedSince(row, worker, since, lease) && lease > 0.0 && round.NonNegative()
    requires row.state == Running || row.payload.HasResumeKey()
    ensures (forall at :: since <= at <= since + round.Length(lease) ==> !row.Claimable(at))
            <==> round.Delay() <= 2.0 * lease / 3.0
  {
    if round.Delay() > 2.0 * lease / 3.0 {
      assert row.Claimable(since + round.Length(lease));
    }
  }

  /** A write landing at a time. A claim reads the database clock. */
  datatype Landing = Landing(at: Time, write: Write)

  /**
   What others may do while the attempt runs: claim at will, present any fenced write as another
   worker, or write the row without taking it back from the lease or requeueing it.
   */
  predicate ByOthers(landing: Landing, worker: Worker) {
    match landing.write
    case Claim(_, dbNow, _) => dbNow == landing.at
    case Foreign(newState, _, clearsLease) => !clearsLease && newState in {Running, Waiting, AwaitingHuman}
    case _ => landing.write.worker != worker
  }

  predicate Within(landings: seq<Landing>, worker: Worker, from: Time, to: Time) {
    forall i :: 0 <= i < |landings| ==> from <= landings[i].at <= to && ByOthers(landings[i], worker)
  }

  function PlayLandings(row: Row, landings: seq<Landing>): Row
    decreases landings
  {
    if landings == [] then row else PlayLandings(Apply(row, landings[0].write), landings[1..])
  }

  /** No claim and no fenced write among the landings takes effect. */
  predicate AllRefused(row: Row, landings: seq<Landing>)
    decreases landings
  {
    landings == []
    || ((landings[0].write.Foreign? || Outcome(row, landings[0].write).Refused?)
        && AllRefused(Apply(row, landings[0].write), landings[1..]))
  }

  lemma {:induction false} LeaseHoldsBetweenRenewals(row: Row, worker: Worker, since: Time, lease: Time,
                                                     landings: seq<Landing>, until: Time)
    requires LeasedSince(row, worker, since, lease)
    requires until <= since + lease && Within(landings, worker, since, until)
    ensures AllRefused(row, landings) && LeasedSince(PlayLandings(row, landings), worker, since, lease)
    decreases landings
  {
    if landings != [] {
      assert ByOthers(landings[0], worker);
      assert Within(landings[1..], worker, since, until);
      LeaseHoldsBetweenRenewals(Apply(row, landings[0].write), worker, since, lease, landings[1..], until);
    }
  }

  /** A heartbeat round with what others do in it, ended by a renewal presenting some version. */
  datatype Beat = Beat(round: Round, others: seq<Landing>, expected: nat, now: Time)

  function BeatEnd(since: Time, lease: Time, beat: Beat): Time {
    since + beat.round.Length(lease)
  }

  function RenewalOf(worker: Worker, since: Time, lease: Time, beat: Beat): Write {
    Renew(worker, beat.expected, beat.now, BeatEnd(since, lease, beat), lease)
  }

  /** The attempt is unsettled after the beats: every renewal was accepted, and every round was prompt. */
  predicate Healthy(row: Row, worker: Worker, since: Time, lease: Time, beats: seq<Beat>)
    decreases beats
  {
    beats == [] ||
    var beat := beats[0];
    var found := PlayLandings(row, beat.others);
    && beat.round.NonNegative() && beat.round.Delay() < 2.0 * lease / 3.0
    && Within(beat.others, worker, since, BeatEnd(since, lease, beat))
    && Outcome(found, RenewalOf(worker, since, lease, beat)).Written?
    && Healthy(Apply(found, RenewalOf(worker, since, lease, beat)), worker, BeatEnd(since, lease, beat), lease,
               beats[1..])
  }

  /** The row, and the time of the last renewal, after the beats. */
  function PlayBeats(row: Row, worker: Worker, since: Time, lease: Time, beats: seq<Beat>): (Row, Time)
    decreases beats
  {
    if beats == [] then (row, since)
    else
      PlayBeats(Apply(PlayLandings(row, beats[0].others), RenewalOf(worker, since, lease, beats[0])),
                worker, BeatEnd(since, lease, beats[0]), lease, beats[1..])
  }

  predicate NobodyElseWrote(row: Row, worker: Worker, since: Time, lease: Time, beats: seq<Beat>)
    decreases beats
  {
    beats == []
    || (AllRefused(row, beats[0].others)
        && NobodyElseWrote(Apply(PlayLandings(row, beats[0].others), RenewalOf(worker, since, lease, beats[0])),
                           worker, BeatEnd(since, lease, beats[0]), lease, beats[1..]))
  }

  /** The round in which the attempt settles: as prompt as the others, and settled before its renewal lands. */
  predicate SettlesInTime(renewed: Time, lease: Time, last: Beat, settled: Time) {
    last.round.NonNegative() && last.round.Delay() < 2.0 * lease / 3.0 && settled <= BeatEnd(renewed, lease, last)
  }

  /**
   Lease continuity. From a claim through any number of healthy rounds, and on to settlement within the
   next round, every claim of the run (by any worker, this one included) and every fenced write of another
   worker is refused, and the lease outlives the attempt.
   */
  lemma {:induction false} LeaseNeverLapses(row: Row, worker: Worker, since: Time, lease: Time, beats: seq<Beat>,
                                            last: Beat, settled: Time)
    requires lease > 0.0 && LeasedSince(row, worker, since, lease)
    requires Healthy(row, worker, since, lease, beats)
    requires var (_, renewed) := PlayBeats(row, worker, since, lease, beats);
             SettlesInTime(renewed, lease, last, settled) && Within(last.others, worker, renewed, settled)
    ensures NobodyElseWrote(row, worker, since, lease, beats)
    ensures var (found, renewed) := PlayBeats(row, worker, since, lease, beats);
            && AllRefused(found, last.others)
            && LeasedSince(PlayLandings(found, last.others), worker, renewed, lease)
            && settled < renewed + lease
            && forall at :: at <= settled ==> !PlayLandings(found, last.others).Claimable(at)
    decreases beats
  {
    if beats == [] {
      LeaseHoldsBetweenRenewals(row, worker, since, lease, last.others, settled);
    } else {
      var beat := beats[0];
      LeaseHoldsBetweenRenewals(row, worker, since, lease, beat.others, BeatEnd(since, lease, beat));
      var next := Apply(PlayLandings(row, beat.others), RenewalOf(worker, since, lease, beat));
      LeaseNeverLapses(next, worker, BeatEnd(since, lease, beat), lease, beats[1..], last, settled);
    }
  }

  /** The fleet's attempt after its heartbeat fires, reads one row and lands its renewal on another. */
  function AfterBeat(attempt: Fleet.Attempt, read: Row, readAt: Time, found: Row, landing: Fleet.Act): Fleet.Attempt {
    Fleet.After(Fleet.After(Fleet.After(attempt, read, Fleet.BeatFires), read, Fleet.BeatReads(readAt)), found, landing)
  }

  /**
   A beat is the fleet's heartbeat: an armed attempt that reads its row under a live lease presents exactly
   the renewal of the beat that names the version it read, and is armed again, unsettled, if and only if that
   renewal is accepted and answered before the lease it grants is over; otherwise it is aborted.
   */
  lemma {:induction false} BeatIsTheFleetsHeartbeat(attempt: Fleet.Attempt, read: Row, readAt: Time, found: Row,
                                                    since: Time, lease: Time, beat: Beat,
                                 later: Time, answered: bool)
    requires attempt.beat.Armed? && !attempt.settled && !attempt.aborted
    requires read.LeaseHeld(attempt.worker, readAt) && beat.expected == read.version
    ensures var landing := Fleet.RenewLands(beat.now, BeatEnd(since, lease, beat), lease, later, answered);
            var reading := Fleet.After(Fleet.After(attempt, read, Fleet.BeatFires), read, Fleet.BeatReads(readAt));
            var after := AfterBeat(attempt, read, readAt, found, landing);
            var accepted := Outcome(found, RenewalOf(attempt.worker, since, lease, beat)).Written?
                            && answered && later < BeatEnd(since, lease, beat) + lease;
            && Fleet.WriteOf(reading, landing) == Some(RenewalOf(attempt.worker, since, lease, beat))
            && (after.beat.Armed? <==> accepted) && (after.settled <==> !accepted) && (after.aborted <==> !accepted)
  {
    var reading := Fleet.After(Fleet.After(attempt, read, Fleet.BeatFires), read, Fleet.BeatReads(readAt));
    assert reading.beat == Fleet.Renewing(read);
  }
}
