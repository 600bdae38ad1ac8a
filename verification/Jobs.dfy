/**
 Job rows: the durable truth about background work (edlo/jobs/__init__.py).

 Each row operation is written twice: as a function from the old row to the new
 one, which the protocol in Protocol.dfy steps through, and as a method of
 JobTable that updates the table in place and is proved equal to that function.
 A transaction is one atomic update of `rows`; clock readings are parameters.
 */
module Jobs {
  import opened Wrappers

  type JobId = string
  type WorkerId = string

  const LEASE_SECONDS: int := 300
  const STALE_AFTER: int := 120
  const STALE_LIMIT: nat := 100
  const MESSAGE_LIMIT: nat := 2000

  datatype Status = Queued | Running | Succeeded | Failed | Dead

  datatype Job = Job(
    kind: string,
    payload: string,
    status: Status,
    attempt: nat,
    maxAttempts: int,
    leaseOwner: Option<WorkerId>,
    leaseExpiresAt: Option<int>,
    createdAt: int,
    startedAt: Option<int>,
    finishedAt: Option<int>,
    errorClass: Option<string>,
    errorMessage: Option<string>)

  /** An exception: its class, the class of its `__cause__` if it has one, its text. */
  datatype Failure = Failure(className: string, cause: Option<string>, text: string)

  function NewJob(kind: string, payload: string, maxAttempts: int, now: int): Job {
    Job(kind, payload, Queued, 0, maxAttempts, None, None, now, None, None, None, None)
  }

  // ---- rows

  predicate LeaseLapsed(job: Job, now: int) {
    job.leaseExpiresAt.Some? && job.leaseExpiresAt.value < now
  }

  predicate Claimable(job: Job, now: int) {
    && job.attempt < job.maxAttempts
    && (job.status == Queued || job.status == Failed || (job.status == Running && LeaseLapsed(job, now)))
  }

  predicate Terminal(job: Job) {
    job.status == Succeeded || job.status == Dead
  }

  function Leased(job: Job, worker: WorkerId, leaseSeconds: int, now: int): Job {
    job.(status := Running,
         leaseOwner := Some(worker),
         leaseExpiresAt := Some(now + leaseSeconds),
         attempt := job.attempt + 1,
         startedAt := if job.startedAt.Some? then job.startedAt else Some(now))
  }

  function LeaseExtended(job: Job, worker: WorkerId, seconds: int, now: int): Job {
    if job.status == Running && job.leaseOwner == Some(worker)
    then job.(leaseExpiresAt := Some(now + seconds))
    else job
  }

  function MarkedSucceeded(job: Job, now: int): Job {
    job.(status := Succeeded, finishedAt := Some(now), leaseOwner := None, leaseExpiresAt := None,
         errorClass := None, errorMessage := None)
  }

  function WithError(job: Job, exc: Failure): Job {
    job.(errorClass := Some(if exc.cause.Some? then exc.cause.value else exc.className),
         errorMessage := Some(if |exc.text| <= MESSAGE_LIMIT then exc.text else exc.text[..MESSAGE_LIMIT]))
  }

  function Max(a: int, b: int): int { if a > b then a else b }

  predicate Exhausted(job: Job, receiveCount: int) {
    Max(receiveCount, job.attempt) >= job.maxAttempts
  }

  function MarkedFailed(job: Job, exc: Failure, receiveCount: int, now: int): Job {
    var exhausted := Exhausted(job, receiveCount);
    WithError(job, exc).(
      status := if exhausted then Dead else Failed,
      finishedAt := if exhausted then Some(now) else job.finishedAt,
      leaseOwner := None, leaseExpiresAt := None)
  }

  function MarkedDead(job: Job, exc: Failure, now: int): Job {
    WithError(job, exc).(status := Dead, finishedAt := Some(now), leaseOwner := None, leaseExpiresAt := None)
  }

  // ---- tables; a missing row is left missing by every operation

  type Rows = map<JobId, Job>

  predicate CanClaim(rows: Rows, id: JobId, now: int) {
    id in rows && Claimable(rows[id], now)
  }

  function Claim(rows: Rows, id: JobId, worker: WorkerId, leaseSeconds: int, now: int): Rows {
    if CanClaim(rows, id, now) then rows[id := Leased(rows[id], worker, leaseSeconds, now)] else rows
  }

  function ExtendLease(rows: Rows, id: JobId, worker: WorkerId, seconds: int, now: int): Rows {
    if id in rows then rows[id := LeaseExtended(rows[id], worker, seconds, now)] else rows
  }

  function MarkSucceeded(rows: Rows, id: JobId, now: int): Rows {
    if id in rows then rows[id := MarkedSucceeded(rows[id], now)] else rows
  }

  function MarkFailed(rows: Rows, id: JobId, exc: Failure, receiveCount: int, now: int): Rows {
    if id in rows then rows[id := MarkedFailed(rows[id], exc, receiveCount, now)] else rows
  }

  function MarkDead(rows: Rows, id: JobId, exc: Failure, now: int): Rows {
    if id in rows then rows[id := MarkedDead(rows[id], exc, now)] else rows
  }

  // ---- the reconciler's query

  predicate StaleQueued(job: Job, cutoff: int) {
    job.status == Queued && job.attempt == 0 && job.createdAt < cutoff
  }

  ghost function StaleSet(rows: Rows, cutoff: int): set<JobId> {
    set id | id in rows && StaleQueued(rows[id], cutoff)
  }

  /** What the query promises: stale rows only, each once, oldest first, and a row is
      left out only when a full page of rows no younger than it was returned. */
  ghost predicate StalePage(rows: Rows, cutoff: int, page: seq<JobId>) {
    && |page| <= STALE_LIMIT
    && (forall i :: 0 <= i < |page| ==> page[i] in StaleSet(rows, cutoff))
    && (forall i, j :: 0 <= i < j < |page| ==> page[i] != page[j] && rows[page[i]].createdAt <= rows[page[j]].createdAt)
    && (forall id :: id in StaleSet(rows, cutoff) && id !in page ==>
          |page| == STALE_LIMIT && forall i :: 0 <= i < |page| ==> rows[page[i]].createdAt <= rows[id].createdAt)
  }

  // ---- what the operations come to, column by column

  predicate Reached(expiry: Option<int>, now: int) { expiry.Some? && expiry.value < now }

  /** The row was claimed by the worker at this time, leased until then. */
  predicate ClaimedBy(was: Job, job: Job, worker: WorkerId, until: int, now: int) {
    && job.status == Running && job.attempt == was.attempt + 1
    && job.leaseOwner == Some(worker) && job.leaseExpiresAt == Some(until)
    && (if was.startedAt.None? then job.startedAt == Some(now) else job.startedAt == was.startedAt)
    && job.finishedAt == was.finishedAt && job.errorClass == was.errorClass && job.errorMessage == was.errorMessage
    && SameOrder(was, job)
  }

  /** What a job was created with. */
  predicate SameOrder(was: Job, job: Job) {
    && job.kind == was.kind && job.payload == was.payload
    && job.maxAttempts == was.maxAttempts && job.createdAt == was.createdAt
  }

  /** The row was marked: nobody's any more, with the error's class, its cause's if it has one,
      and the first 2000 characters of its text, or without an error. */
  predicate MarkedAs(was: Job, job: Job, status: Status, exc: Option<Failure>, finishedAt: Option<int>) {
    && job.status == status && job.finishedAt == finishedAt
    && job.leaseOwner.None? && job.leaseExpiresAt.None?
    && job.attempt == was.attempt && job.startedAt == was.startedAt && SameOrder(was, job)
    && match exc
       case None => job.errorClass.None? && job.errorMessage.None?
       case Some(failure) =>
         && job.errorClass == (if failure.cause.Some? then failure.cause else Some(failure.className))
         && job.errorMessage.Some? && job.errorMessage.value <= failure.text
         && |job.errorMessage.value| == if |failure.text| > 2000 then 2000 else |failure.text|
  }

  /** A lease taken or extended at some time keeps everybody out for its whole length, and not
      a second longer. */
  lemma LeaseHolds(rows: Rows, id: JobId, worker: WorkerId, seconds: int, now: int, t: int)
    requires id in rows
    ensures CanClaim(rows, id, now) ==>
              (CanClaim(Claim(rows, id, worker, seconds, now), id, t)
               <==> t > now + seconds && rows[id].attempt + 1 < rows[id].maxAttempts)
    ensures rows[id].status == Running && rows[id].leaseOwner == Some(worker) ==>
              (CanClaim(ExtendLease(rows, id, worker, seconds, now), id, t)
               <==> t > now + seconds && rows[id].attempt < rows[id].maxAttempts)
  {
  }

  // ---- the table in place

  class JobTable {
    var rows: Rows

    constructor ()
      ensures rows == map[]
    {
      rows := map[];
    }

    method ClaimJob(id: JobId, worker: WorkerId, leaseSeconds: int, now: int) returns (claimed: Option<Job>)
      modifies this
      ensures rows == Claim(old(rows), id, worker, leaseSeconds, now)
      ensures claimed == if CanClaim(old(rows), id, now) then Some(rows[id]) else None
      ensures claimed.Some? <==>
                && id in old(rows) && old(rows)[id].attempt < old(rows)[id].maxAttempts
                && (|| old(rows)[id].status in {Queued, Failed}
                    || (old(rows)[id].status == Running && Reached(old(rows)[id].leaseExpiresAt, now)))
      ensures claimed.Some? ==> rows == old(rows)[id := claimed.value] && ClaimedBy(old(rows)[id], claimed.value, worker, now + leaseSeconds, now)
    {
      if id !in rows || !Claimable(rows[id], now) {
        return None;
      }
      claimed := Take(id, worker, leaseSeconds, now);
    }

    /** The oldest claimable job, whichever it is. */
    method ClaimNextJob(worker: WorkerId, leaseSeconds: int, now: int) returns (claimed: Option<JobId>)
      modifies this
      ensures claimed.None? <==> forall id :: id in old(rows) ==> !Claimable(old(rows)[id], now)
      ensures claimed.None? ==> rows == old(rows)
      ensures claimed.Some? ==>
                && CanClaim(old(rows), claimed.value, now)
                && rows == Claim(old(rows), claimed.value, worker, leaseSeconds, now)
                && forall id :: id in old(rows) && Claimable(old(rows)[id], now) ==>
                     old(rows)[claimed.value].createdAt <= old(rows)[id].createdAt
    {
      var claimable := set id | id in rows && Claimable(rows[id], now);
      if claimable == {} {
        assert forall id :: id in rows && Claimable(rows[id], now) ==> id in claimable;
        return None;
      }
      var oldest := Oldest(claimable);
      var _ := Take(oldest, worker, leaseSeconds, now);
      claimed := Some(oldest);
    }

    method Oldest(candidates: set<JobId>) returns (oldest: JobId)
      requires candidates != {} && candidates <= rows.Keys
      ensures oldest in candidates
      ensures forall id :: id in candidates ==> rows[oldest].createdAt <= rows[id].createdAt
    {
      oldest :| oldest in candidates;
      var rest := candidates - {oldest};
      while rest != {}
        invariant oldest in candidates && rest <= candidates
        invariant forall id :: id in candidates - rest ==> rows[oldest].createdAt <= rows[id].createdAt
        decreases rest
      {
        var id :| id in rest;
        if rows[id].createdAt < rows[oldest].createdAt {
          oldest := id;
        }
        rest := rest - {id};
      }
    }

    method Take(id: JobId, worker: WorkerId, leaseSeconds: int, now: int) returns (taken: Option<Job>)
      requires id in rows
      modifies this
      ensures rows == old(rows)[id := Leased(old(rows)[id], worker, leaseSeconds, now)]
      ensures taken == Some(rows[id])
    {
      var job := rows[id];
      job := job.(status := Running);
      job := job.(leaseOwner := Some(worker));
      job := job.(leaseExpiresAt := Some(now + leaseSeconds));
      job := job.(attempt := job.attempt + 1);
      if job.startedAt.None? {
        job := job.(startedAt := Some(now));
      }
      rows := rows[id := job];
      taken := Some(job);
    }

    method ExtendJobLease(id: JobId, worker: WorkerId, seconds: int, now: int)
      modifies this
      ensures rows == ExtendLease(old(rows), id, worker, seconds, now)
      ensures if id in old(rows) && old(rows)[id].status == Running && old(rows)[id].leaseOwner == Some(worker)
              then rows == old(rows)[id := old(rows)[id].(leaseExpiresAt := Some(now + seconds))]
              else rows == old(rows)
    {
      if id in rows && rows[id].status == Running && rows[id].leaseOwner == Some(worker) {
        rows := rows[id := rows[id].(leaseExpiresAt := Some(now + seconds))];
      }
    }

    method Succeed(id: JobId, now: int)
      modifies this
      ensures rows == MarkSucceeded(old(rows), id, now)
      ensures if id !in old(rows) then rows == old(rows)
              else id in rows && rows == old(rows)[id := rows[id]] && MarkedAs(old(rows)[id], rows[id], Succeeded, None, Some(now))
    {
      if id !in rows {
        return;
      }
      var job := rows[id];
      job := job.(status := Succeeded);
      job := job.(finishedAt := Some(now));
      job := job.(leaseOwner := None, leaseExpiresAt := None);
      job := job.(errorClass := None, errorMessage := None);
      rows := rows[id := job];
    }

    method Fail(id: JobId, exc: Failure, receiveCount: int, now: int)
      modifies this
      ensures rows == MarkFailed(old(rows), id, exc, receiveCount, now)
      ensures if id !in old(rows) then rows == old(rows)
              else
                var was := old(rows)[id];
                var over := receiveCount >= was.maxAttempts || was.attempt >= was.maxAttempts;
                id in rows && rows == old(rows)[id := rows[id]]
                && MarkedAs(was, rows[id], if over then Dead else Failed, Some(exc), if over then Some(now) else was.finishedAt)
    {
      if id !in rows {
        return;
      }
      var job := WithError(rows[id], exc);
      var exhausted := Max(receiveCount, job.attempt) >= job.maxAttempts;
      job := job.(status := if exhausted then Dead else Failed);
      if exhausted {
        job := job.(finishedAt := Some(now));
      }
      job := job.(leaseOwner := None, leaseExpiresAt := None);
      rows := rows[id := job];
    }

    method Kill(id: JobId, exc: Failure, now: int)
      modifies this
      ensures rows == MarkDead(old(rows), id, exc, now)
      ensures if id !in old(rows) then rows == old(rows)
              else id in rows && rows == old(rows)[id := rows[id]] && MarkedAs(old(rows)[id], rows[id], Dead, Some(exc), Some(now))
    {
      if id !in rows {
        return;
      }
      var job := WithError(rows[id], exc);
      job := job.(status := Dead);
      job := job.(finishedAt := Some(now));
      job := job.(leaseOwner := None, leaseExpiresAt := None);
      rows := rows[id := job];
    }

    method StaleQueuedJobs(olderThan: int, now: int) returns (page: seq<JobId>)
      ensures StalePage(rows, now - olderThan, page)
      ensures |page| <= 100
      ensures forall id :: id in page ==>
                id in rows && rows[id].status == Queued && rows[id].attempt == 0 && rows[id].createdAt < now - olderThan
      ensures |page| < 100 ==>
                forall id :: id in rows && id !in page ==>
                  !(rows[id].status == Queued && rows[id].attempt == 0 && rows[id].createdAt < now - olderThan)
    {
      var cutoff := now - olderThan;
      var rest := set id | id in rows && StaleQueued(rows[id], cutoff);
      page := [];
      while rest != {} && |page| < STALE_LIMIT
        invariant |page| <= STALE_LIMIT
        invariant rest <= StaleSet(rows, cutoff)
        invariant forall i :: 0 <= i < |page| ==> page[i] in StaleSet(rows, cutoff) && page[i] !in rest
        invariant forall id :: id in StaleSet(rows, cutoff) && id !in page ==> id in rest
        invariant forall i, id :: 0 <= i < |page| && id in rest ==> rows[page[i]].createdAt <= rows[id].createdAt
        invariant forall i, j :: 0 <= i < j < |page| ==>
          page[i] != page[j] && rows[page[i]].createdAt <= rows[page[j]].createdAt
        decreases rest
      {
        var oldest := Oldest(rest);
        page := page + [oldest];
        rest := rest - {oldest};
      }
    }
  }
}
