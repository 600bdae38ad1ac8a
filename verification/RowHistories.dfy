/**
 What a job row says about its past (edlo/jobs/__init__.py), over whole runs of the protocol:
 which columns never change, when the first start and the end were, and which error is on it.
 */
module RowHistories {
  import opened Jobs
  import opened Protocol
  import opened Queue
  import opened Wrappers

  /** Errors are recorded whole, cut to 2000 characters, exactly on jobs that came to nothing;
      a success wipes them, and a running job keeps the error of its last attempt. */
  predicate ErrorsFit(job: Job) {
    && (job.errorClass.Some? <==> job.errorMessage.Some?)
    && (job.errorMessage.Some? ==> |job.errorMessage.value| <= MESSAGE_LIMIT)
    && (job.status == Failed || job.status == Dead ==> job.errorClass.Some?)
    && (job.status == Succeeded || job.status == Queued ==> job.errorClass.None?)
  }

  /** Created, started, finished: in that order, and none of it in the future; a lease never
      reaches further than one lease period ahead. */
  predicate TimesFit(job: Job, clock: int) {
    && job.createdAt <= clock
    && (job.startedAt.Some? ==> job.createdAt <= job.startedAt.value <= clock)
    && (job.finishedAt.Some? ==> job.createdAt <= job.finishedAt.value <= clock)
    && (job.finishedAt.Some? && job.startedAt.Some? && Terminal(job) ==> job.startedAt.value <= job.finishedAt.value)
    && (job.leaseExpiresAt.Some? ==> job.leaseExpiresAt.value <= clock + LEASE_SECONDS)
  }

  ghost predicate HistoriesFit(s: Sys) {
    && (forall j :: j in s.rows ==> Fits(s.rows[j], s.clock))
    && (forall j :: j in s.rows ==> j in s.kinds)
  }

  /** One row as it was and as it is: what it was created with stays, attempts only add up,
      and the first start is for good. */
  predicate Continues(was: Job, now: Job) {
    && now.kind == was.kind && now.payload == was.payload
    && now.maxAttempts == was.maxAttempts && now.createdAt == was.createdAt
    && was.attempt <= now.attempt
    && (was.startedAt.Some? ==> now.startedAt == was.startedAt)
  }

  /** The only ways a row is written. */
  datatype Write = Take(w: WorkerId) | Extend(w: WorkerId) | Succeed | Fail(exc: Failure, count: nat) | Kill(exc: Failure)

  function Written(job: Job, write: Write, clock: int): Job {
    match write
    case Take(w) => Leased(job, w, LEASE_SECONDS, clock)
    case Extend(w) => LeaseExtended(job, w, LEASE_SECONDS, clock)
    case Succeed => MarkedSucceeded(job, clock)
    case Fail(exc, count) => MarkedFailed(job, exc, count, clock)
    case Kill(exc) => MarkedDead(job, exc, clock)
  }

  predicate Fits(job: Job, clock: int) { ErrorsFit(job) && TimesFit(job, clock) }

  lemma LeaseFits(job: Job, w: WorkerId, clock: int)
    requires Fits(job, clock)
    ensures Fits(Leased(job, w, LEASE_SECONDS, clock), clock) && Continues(job, Leased(job, w, LEASE_SECONDS, clock))
    ensures Fits(LeaseExtended(job, w, LEASE_SECONDS, clock), clock)
    ensures Continues(job, LeaseExtended(job, w, LEASE_SECONDS, clock))
  {
  }

  lemma SuccessFits(job: Job, clock: int)
    requires Fits(job, clock)
    ensures Fits(MarkedSucceeded(job, clock), clock) && Continues(job, MarkedSucceeded(job, clock))
  {
  }

  lemma FailureFits(job: Job, exc: Failure, count: nat, clock: int)
    requires Fits(job, clock)
    ensures Fits(MarkedFailed(job, exc, count, clock), clock) && Continues(job, MarkedFailed(job, exc, count, clock))
  {
  }

  lemma DeathFits(job: Job, exc: Failure, clock: int)
    requires Fits(job, clock)
    ensures Fits(MarkedDead(job, exc, clock), clock) && Continues(job, MarkedDead(job, exc, clock))
  {
  }

  /** Whichever write comes, in whatever order, the row it leaves fits and continues. */
  lemma WriteFits(job: Job, write: Write, clock: int)
    requires Fits(job, clock)
    ensures Fits(Written(job, write, clock), clock) && Continues(job, Written(job, write, clock))
  {
    hide Fits, Continues, Leased, LeaseExtended, MarkedSucceeded, MarkedFailed, MarkedDead;
    match write
    case Take(w) => LeaseFits(job, w, clock);
    case Extend(w) => LeaseFits(job, w, clock);
    case Succeed => SuccessFits(job, clock);
    case Fail(exc, count) => FailureFits(job, exc, count, clock);
    case Kill(exc) => DeathFits(job, exc, clock);
  }

  /** What a worker's event writes to a row: nothing, or one of the writes. */
  lemma EventWrites(c: Config, s: Sys, e: Event, j: JobId) returns (write: Option<Write>)
    requires Enabled(c, s, e) && !e.Submit? && j in s.rows && j in Step(c, s, e).rows
    ensures Step(c, s, e).rows[j] == if write.Some? then Written(s.rows[j], write.value, s.clock) else s.rows[j]
  {
    hide Sent, Requeued, Taken, Acked, Extended, Expired, OverLimit;
    if Step(c, s, e).rows[j] == s.rows[j] {
      return None;
    }
    match e
    case Claim(w) =>
      var m := PcOf(s.pcs, w).m;
      return Some(if HasHandler(m.kind) then Take(w) else Kill(UnknownKind(m.kind)));
    case Finish(w, outcome) =>
      var m := PcOf(s.pcs, w).m;
      match outcome {
        case Success => return Some(Succeed);
        case Permanent(exc) => return Some(Kill(exc));
        case Transient(exc) => return Some(Fail(exc, m.count));
      }
    case AckRaises(w, exc) => return Some(Fail(exc, PcOf(s.pcs, w).m.count));
    case HeartbeatRow(w, _) => return Some(Extend(w));
    case _ =>
  }

  lemma StepFits(c: Config, s: Sys, e: Event)
    requires HistoriesFit(s) && Enabled(c, s, e)
    ensures HistoriesFit(Step(c, s, e))
    ensures forall j :: j in s.rows && j in Step(c, s, e).rows ==> Continues(s.rows[j], Step(c, s, e).rows[j])
  {
    hide Continues, Leased, LeaseExtended, MarkedSucceeded, MarkedFailed, MarkedDead, CanClaim;
    var t := Step(c, s, e);
    forall j | j in t.rows
      ensures Fits(t.rows[j], t.clock) && j in t.kinds
      ensures j in s.rows ==> Continues(s.rows[j], t.rows[j])
    {
      if j in s.rows && !e.Submit? {
        var write := EventWrites(c, s, e, j);
        if write.Some? {
          WriteFits(s.rows[j], write.value, s.clock);
        } else {
          Unwritten(s.rows[j]);
        }
      } else {
        NewFits(c, s, e, j);
      }
    }
  }

  lemma Unwritten(job: Job)
    ensures Continues(job, job)
  {
  }

  lemma NewFits(c: Config, s: Sys, e: Event, j: JobId)
    requires HistoriesFit(s) && Enabled(c, s, e) && j in Step(c, s, e).rows && (j !in s.rows || e.Submit?)
    ensures var t := Step(c, s, e);
            Fits(t.rows[j], t.clock) && j in t.kinds && (j in s.rows ==> Continues(s.rows[j], t.rows[j]))
  {
    hide Sent, Requeued, Taken, Acked, Extended, Expired, OverLimit;
  }

  lemma {:induction false} RunFits(c: Config, s: Sys, es: seq<Event>, j: JobId)
    requires HistoriesFit(s) && Runs(c, s, es)
    ensures var t := After(c, s, es);
            HistoriesFit(t) && (j in s.rows && j in t.rows ==> Continues(s.rows[j], t.rows[j]))
    decreases |es|
  {
    hide Step, Enabled, Fits;
    if es != [] {
      var next := Step(c, s, es[0]);
      StepFits(c, s, es[0]);
      if j in s.rows && j !in next.rows {
        StillKnown(c, s, es[0], j);
        DeletedForGood(c, next, es[1..], j);
      }
      RunFits(c, next, es[1..], j);
    } else if j in s.rows {
      Unwritten(s.rows[j]);
    }
  }

  lemma StartFits(clock: int)
    ensures HistoriesFit(Start(clock))
  {
  }

  /** In every run, whatever is claimed, retried, finished late or finished twice: from any
      moment s of it to any later one t, a row keeps what it was created with and its first
      start, its attempts only add up, and its errors and times fit its status. */
  lemma RowsRememberRightly(c: Config, clock: int, es: seq<Event>, fs: seq<Event>, j: JobId)
    requires Runs(c, Start(clock), es) && Runs(c, After(c, Start(clock), es), fs)
    ensures var s := After(c, Start(clock), es);
            var t := After(c, s, fs);
            j in t.rows ==>
              && ErrorsFit(t.rows[j]) && TimesFit(t.rows[j], t.clock)
              && (j in s.rows ==> Continues(s.rows[j], t.rows[j]))
  {
    StartFits(clock);
    RunFits(c, Start(clock), es, j);
    RunFits(c, After(c, Start(clock), es), fs, j);
  }
}
