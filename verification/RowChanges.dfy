/**
 What changes a job row (edlo/jobs/__init__.py, apps/worker/main.py): for every reachable
 state and every event, exactly when a job is given up, failed, finished or taken, told from
 the columns of the row and the message in the worker's hand. Then what that means for whole
 runs: no job is given up early, and heartbeats in time keep everybody else out.
 */
module RowChanges {
  import opened Wrappers
  import opened Jobs
  import opened Queue
  import opened Protocol
  import opened Leases

  // ---- causes

  predicate HasInHand(s: Sys, w: WorkerId, j: JobId) {
    HasMessage(PcOf(s.pcs, w)) && PcOf(s.pcs, w).m.job == Some(j)
  }

  /** The event ends an attempt with an error that is not for good. */
  predicate Errs(s: Sys, e: Event, j: JobId) {
    && ((e.Finish? && e.outcome.Transient?) || e.AckRaises?)
    && HasInHand(s, e.w, j)
  }

  /** The job has been delivered, or attempted, as often as it may. */
  predicate OutOfTries(s: Sys, w: WorkerId, j: JobId)
    requires j in s.rows && HasInHand(s, w, j)
  {
    PcOf(s.pcs, w).m.count >= s.rows[j].maxAttempts || s.rows[j].attempt >= s.rows[j].maxAttempts
  }

  /** The job's kind is unknown, or its handler failed for good, or once too often. */
  predicate GivesUp(s: Sys, e: Event, j: JobId)
    requires j in s.rows
  {
    || (e.Claim? && HasInHand(s, e.w, j) && PcOf(s.pcs, e.w).m.kind !in {"transcribe", "plan", "pack"})
    || (e.Finish? && e.outcome.Permanent? && HasInHand(s, e.w, j))
    || (Errs(s, e, j) && OutOfTries(s, e.w, j))
  }

  function Cause(s: Sys, e: Event, j: JobId): Failure
    requires j in s.rows && (GivesUp(s, e, j) || Errs(s, e, j))
  {
    if e.AckRaises? then e.exc
    else if e.Finish? then e.outcome.exc
    else Failure("PermanentFailure", None, "unknown job kind '" + PcOf(s.pcs, e.w).m.kind + "'")
  }

  predicate Takes(s: Sys, e: Event, j: JobId)
    requires j in s.rows
  {
    && e.Claim? && HasInHand(s, e.w, j) && PcOf(s.pcs, e.w).m.kind in {"transcribe", "plan", "pack"}
    && s.rows[j].attempt < s.rows[j].maxAttempts
    && match s.rows[j].status
       case Queued => true
       case Failed => true
       case Running => Reached(s.rows[j].leaseExpiresAt, s.clock)
       case _ => false
  }

  predicate Beats(s: Sys, e: Event, j: JobId)
    requires j in s.rows
  {
    e.HeartbeatRow? && e.j == j && s.rows[j].status == Running && s.rows[j].leaseOwner == Some(e.w)
  }

  // ---- effects

  /** One step in the life of an existing row: what happened, told from the event, and what
      the row says then. */
  predicate ChangesRightly(s: Sys, e: Event, was: Job, now: Job, j: JobId)
    requires j in s.rows
  {
    if GivesUp(s, e, j) then
      MarkedAs(was, now, Dead, Some(Cause(s, e, j)), Some(s.clock))
    else if Errs(s, e, j) then
      MarkedAs(was, now, Failed, Some(Cause(s, e, j)), was.finishedAt)
    else if e.Finish? && HasInHand(s, e.w, j) then
      MarkedAs(was, now, Succeeded, None, Some(s.clock))
    else if Takes(s, e, j) then
      ClaimedBy(was, now, e.w, s.clock + 300, s.clock)
    else if Beats(s, e, j) then
      now == was.(leaseExpiresAt := Some(s.clock + 300))
    else
      now == was
  }

  lemma ClaimChanges(c: Config, s: Sys, w: WorkerId, j: JobId)
    requires RowsInv(s) && Enabled(c, s, Event.Claim(w)) && j in s.rows
    ensures var t := Step(c, s, Event.Claim(w));
            j in t.rows && ChangesRightly(s, Event.Claim(w), s.rows[j], t.rows[j], j)
  {
    hide RowsInv;
    var m := PcOf(s.pcs, w).m;
    if m.job != Some(j) {
      ClaimElsewhere(s, w, m, j);
    }
  }

  lemma FinishChanges(c: Config, s: Sys, e: Event, j: JobId)
    requires Enabled(c, s, e) && e.Finish? && j in s.rows
    ensures var t := Step(c, s, e); j in t.rows && ChangesRightly(s, e, s.rows[j], t.rows[j], j)
  {
    var m := PcOf(s.pcs, e.w).m;
    if m.job != Some(j) {
      FinishElsewhere(s, e.w, m, e.outcome, j);
    }
  }

  lemma AckRaisesChanges(c: Config, s: Sys, e: Event, j: JobId)
    requires Enabled(c, s, e) && e.AckRaises? && j in s.rows
    ensures var t := Step(c, s, e); j in t.rows && ChangesRightly(s, e, s.rows[j], t.rows[j], j)
  {
  }

  /** In every reachable state, whatever is left of whose lease: these are the only changes,
      and each happens exactly then. */
  lemma RowsChangeRightly(c: Config, clock: int, es: seq<Event>, e: Event, j: JobId)
    requires Runs(c, Start(clock), es) && Enabled(c, After(c, Start(clock), es), e)
    requires j in After(c, Start(clock), es).rows
    ensures var s := After(c, Start(clock), es);
            var t := Step(c, s, e);
            if e == Delete(j) then j !in t.rows else j in t.rows && ChangesRightly(s, e, s.rows[j], t.rows[j], j)
  {
    hide ChangesRightly;
    RunKeepsInv(c, Start(clock), es);
    StepChanges(c, After(c, Start(clock), es), e, j);
  }

  lemma StepChanges(c: Config, s: Sys, e: Event, j: JobId)
    requires RowsInv(s) && Enabled(c, s, e) && j in s.rows
    ensures var t := Step(c, s, e);
            if e == Delete(j) then j !in t.rows else j in t.rows && ChangesRightly(s, e, s.rows[j], t.rows[j], j)
  {
    hide Sent, Requeued, Taken, Acked, Extended, Expired, OverLimit, AfterClaim, AfterFinish, RowsInv;
    RowIsKnown(s, j);
    match e
    case Claim(w) => ClaimChanges(c, s, w, j);
    case Finish(_, _) => FinishChanges(c, s, e, j);
    case AckRaises(_, _) => AckRaisesChanges(c, s, e, j);
    case _ =>
  }

  // ---- nobody gives up early

  /** In every run: a transient failure of a message delivered less often than the job may be
      attempted, in an attempt that is not the last, leaves the job to be claimed again at any
      time, whichever of the two numbers is larger. */
  lemma NeverGivenUpEarly(c: Config, clock: int, es: seq<Event>, w: WorkerId, j: JobId, exc: Failure, later: int)
    requires Runs(c, Start(clock), es)
    requires var s := After(c, Start(clock), es);
             PcOf(s.pcs, w).Handling? && PcOf(s.pcs, w).m.job == Some(j) && j in s.rows
    ensures var s := After(c, Start(clock), es);
            var t := Step(c, s, Finish(w, Transient(exc)));
            && j in t.rows
            && (if PcOf(s.pcs, w).m.count < s.rows[j].maxAttempts && s.rows[j].attempt < s.rows[j].maxAttempts
                then t.rows[j].status == Failed && CanClaim(t.rows, j, later)
                else t.rows[j].status == Dead && !CanClaim(t.rows, j, later))
  {
    var s := After(c, Start(clock), es);
    RowsChangeRightly(c, clock, es, Finish(w, Transient(exc)), j);
  }

  ghost predicate GivenUpIn(c: Config, s: Sys, es: seq<Event>, j: JobId)
    requires Runs(c, s, es)
    decreases |es|
  {
    es != [] && ((j in s.rows && GivesUp(s, es[0], j)) || GivenUpIn(c, Step(c, s, es[0]), es[1..], j))
  }

  lemma {:induction false} DeadFrom(c: Config, s: Sys, es: seq<Event>, j: JobId)
    requires Inv(s) && Runs(c, s, es) && j in After(c, s, es).rows && After(c, s, es).rows[j].status == Dead
    requires j in s.rows ==> s.rows[j].status != Dead
    ensures GivenUpIn(c, s, es, j)
    decreases |es|
  {
    hide QueueInv, RowsInv, WorkersInv, HandlesInv, Step, Enabled, GivesUp;
    if es != [] {
      var next := Step(c, s, es[0]);
      StepKeepsInv(c, s, es[0]);
      if j in next.rows && next.rows[j].status == Dead {
        DiesNow(c, s, es[0], j);
      } else {
        DeadFrom(c, next, es[1..], j);
      }
    }
  }

  lemma DiesNow(c: Config, s: Sys, e: Event, j: JobId)
    requires RowsInv(s) && Enabled(c, s, e) && (j in s.rows ==> s.rows[j].status != Dead)
    requires j in Step(c, s, e).rows && Step(c, s, e).rows[j].status == Dead
    ensures j in s.rows && GivesUp(s, e, j)
  {
    hide RowsInv;
    if j in s.rows {
      StepChanges(c, s, e, j);
    }
  }

  /** So a job that is dead at the end of a run was given up in it, by one of the causes. */
  lemma DeadForACause(c: Config, clock: int, es: seq<Event>, j: JobId)
    requires Runs(c, Start(clock), es)
    requires var s := After(c, Start(clock), es); j in s.rows && s.rows[j].status == Dead
    ensures GivenUpIn(c, Start(clock), es, j)
  {
    DeadFrom(c, Start(clock), es, j);
  }

  // ---- heartbeats in time

  /** When each worker last won a claim, or had its heartbeat extend the row it works on. */
  function LastBeats(s: Sys, e: Event, last: map<WorkerId, int>): map<WorkerId, int> {
    if (e.Claim? && PcOf(s.pcs, e.w).Polled?) || (e.HeartbeatRow? && HandlingJob(PcOf(s.pcs, e.w), e.j))
    then last[e.w := s.clock] else last
  }

  /** While a worker is in a handler, its claim and its row heartbeats are never more than a
      lease apart. */
  ghost predicate BeatsInTime(c: Config, s: Sys, es: seq<Event>, last: map<WorkerId, int>)
    requires Runs(c, s, es)
    decreases |es|
  {
    && (forall w :: PcOf(s.pcs, w).Handling? ==> w in last && s.clock <= last[w] + 300)
    && (es == [] || BeatsInTime(c, Step(c, s, es[0]), es[1..], LastBeats(s, es[0], last)))
  }

  /** The lease of a row reaches a lease beyond its owner's last beat. */
  ghost predicate LeasesReach(s: Sys, last: map<WorkerId, int>) {
    forall w, j :: HandlingJob(PcOf(s.pcs, w), j) && j in s.rows && s.rows[j].leaseOwner == Some(w) ==>
      w in last && s.rows[j].leaseExpiresAt == Some(last[w] + 300)
  }

  lemma StepKeepsReach(c: Config, s: Sys, e: Event, last: map<WorkerId, int>)
    requires RowsInv(s) && Enabled(c, s, e) && LeasesReach(s, last)
    ensures LeasesReach(Step(c, s, e), LastBeats(s, e, last))
  {
    hide RowsInv;
    var t, last' := Step(c, s, e), LastBeats(s, e, last);
    forall w, j | HandlingJob(PcOf(t.pcs, w), j) && j in t.rows && t.rows[j].leaseOwner == Some(w)
      ensures w in last' && t.rows[j].leaseExpiresAt == Some(last'[w] + 300)
    {
      StepKeepsReachOf(c, s, e, last, w, j);
    }
  }

  /** A worker is in the handler of an existing job because it was, or has just taken it. */
  lemma HandlingComesFrom(c: Config, s: Sys, e: Event, w: WorkerId, j: JobId)
    requires Enabled(c, s, e) && HandlingJob(PcOf(Step(c, s, e).pcs, w), j)
    ensures HandlingJob(PcOf(s.pcs, w), j) || (e == Event.Claim(w) && HasInHand(s, w, j) && (j in s.rows ==> Takes(s, e, j)))
    ensures e == Event.Claim(w) ==> PcOf(s.pcs, w).Polled?
  {
    hide Sent, Requeued, Taken, Acked, Extended, Expired, OverLimit;
  }

  lemma NewRowIsNobodys(c: Config, s: Sys, e: Event, j: JobId)
    requires Enabled(c, s, e) && j !in s.rows && j in Step(c, s, e).rows
    ensures Step(c, s, e).rows[j].leaseOwner.None?
  {
  }

  lemma StepKeepsReachOf(c: Config, s: Sys, e: Event, last: map<WorkerId, int>, w: WorkerId, j: JobId)
    requires RowsInv(s) && Enabled(c, s, e) && LeasesReach(s, last)
    requires var t := Step(c, s, e); HandlingJob(PcOf(t.pcs, w), j) && j in t.rows && t.rows[j].leaseOwner == Some(w)
    ensures var last' := LastBeats(s, e, last);
            w in last' && Step(c, s, e).rows[j].leaseExpiresAt == Some(last'[w] + 300)
  {
    hide Step, Enabled, Takes, GivesUp, Errs;
    HandlingComesFrom(c, s, e, w, j);
    if j in s.rows {
      assert RowOk(s, j);
      StepChanges(c, s, e, j);
      TakerHasPolled(c, s, e, j);
    } else {
      NewRowIsNobodys(c, s, e, j);
    }
  }

  lemma TakerHasPolled(c: Config, s: Sys, e: Event, j: JobId)
    requires Enabled(c, s, e) && j in s.rows
    ensures Takes(s, e, j) ==> e.Claim? && PcOf(s.pcs, e.w).Polled?
  {
  }

  lemma {:induction false} InTimeIsKept(c: Config, s: Sys, es: seq<Event>, last: map<WorkerId, int>)
    requires Inv(s) && Runs(c, s, es) && LeasesReach(s, last) && BeatsInTime(c, s, es, last)
    ensures AlwaysKept(c, s, es)
    decreases |es|
  {
    hide Inv, Step, Enabled, LastBeats;
    if es != [] {
      assert RowsInv(s) by { HasRowsInv(s); }
      StepKeepsInv(c, s, es[0]);
      StepKeepsReach(c, s, es[0], last);
      InTimeIsKept(c, Step(c, s, es[0]), es[1..], LastBeats(s, es[0], last));
    }
  }

  lemma HasRowsInv(s: Sys)
    requires Inv(s)
    ensures RowsInv(s)
  {
  }

  /** In every run: if, while a worker is in a handler, its claim and its row heartbeats are
      never more than a lease apart, no live lease lapses, nobody is let in beside a live
      worker, and no two live workers are ever active on one job. Sixty seconds between
      heartbeats leaves room for four of them to be missed. */
  lemma BeatsKeepOthersOut(c: Config, clock: int, es: seq<Event>)
    requires Runs(c, Start(clock), es) && BeatsInTime(c, Start(clock), es, map[])
    ensures AlwaysKept(c, Start(clock), es) && NobodyLetIn(c, Start(clock), es) && AlwaysAlone(c, Start(clock), es)
  {
    InTimeIsKept(c, Start(clock), es, map[]);
    KeptRunsLetNobodyIn(c, Start(clock), es);
    MutualExclusionIff(c, clock, es);
  }
}
