/**
 No job is stranded (edlo/jobs/__init__.py, apps/worker/main.py, edlo/queue/rq_queue.py).

 An unfinished job has a way forward when it is queued and untouched, so the reconciler
 sends it again; or its holder is running it with the message in flight; or it has failed
 and a delivery is still owed. Here is exactly which events take it away: for runs in which
 nobody is let in beside a live worker, every job always has a way forward if and only if
 every event is harmless.
 A job that loses its way forward may get another when a lease lapses; what can still become
 of it is in Recovery.dfy.
 */
module Stranding {
  import opened Wrappers
  import opened Jobs
  import opened Queue
  import opened Protocol
  import opened Leases

  /** A message about job j that will be delivered again, and that no ack is about to remove,
      leaving worker w out of account. */
  ghost predicate OwedAtWithout(c: Config, s: Sys, j: JobId, p: Slot, w: WorkerId) {
    && Occupied(s.q, p) && !p.InDead?
    && At(s.q, p).job == Some(j) && At(s.q, p).count < c.maxReceiveCount
    && forall v :: v != w && PcOf(s.pcs, v).Acking? ==> PcOf(s.pcs, v).m != At(s.q, p)
  }

  ghost predicate OwedAt(c: Config, s: Sys, j: JobId, p: Slot) {
    && Occupied(s.q, p) && !p.InDead?
    && At(s.q, p).job == Some(j) && At(s.q, p).count < c.maxReceiveCount
    && forall w :: PcOf(s.pcs, w).Acking? ==> PcOf(s.pcs, w).m != At(s.q, p)
  }

  predicate AboutToClaim(pc: Pc, j: JobId) { pc.Polled? && pc.m.job == Some(j) }

  ghost predicate Owed(c: Config, s: Sys, j: JobId) {
    || (exists p :: OwedAt(c, s, j, p))
    || (exists w :: AboutToClaim(PcOf(s.pcs, w), j))
  }

  /** Owed a delivery whatever becomes of worker w. */
  ghost predicate OwedWithout(c: Config, s: Sys, j: JobId, w: WorkerId) {
    || (exists p :: OwedAtWithout(c, s, j, p, w))
    || (exists v :: v != w && AboutToClaim(PcOf(s.pcs, v), j))
  }

  ghost predicate HasWayForward(c: Config, s: Sys, j: JobId)
    requires j in s.rows
  {
    var job := s.rows[j];
    match job.status
    case Queued => job.attempt == 0
    case Running => job.leaseOwner.Some? && HandlingJob(PcOf(s.pcs, job.leaseOwner.value), j)
                    && PcOf(s.pcs, job.leaseOwner.value).m in s.q.inflight
    case Failed => CanClaim(s.rows, j, s.clock) && Owed(c, s, j)
    case _ => true
  }

  ghost predicate Forward(c: Config, s: Sys) {
    forall j :: j in s.rows ==> HasWayForward(c, s, j)
  }

  // ---- what takes it away

  /** The worker is in the handler of a job that still exists. */
  predicate RunsAJob(s: Sys, w: WorkerId) {
    && PcOf(s.pcs, w).Handling?
    && PcOf(s.pcs, w).m.job.Some? && PcOf(s.pcs, w).m.job.value in s.rows
  }

  predicate Wins(s: Sys, w: WorkerId) {
    && PcOf(s.pcs, w).Polled? && HasHandler(PcOf(s.pcs, w).m.kind)
    && PcOf(s.pcs, w).m.job.Some? && CanClaim(s.rows, PcOf(s.pcs, w).m.job.value, s.clock)
  }

  /** The worker's mark leaves its job failed, not dead, and it is owed nothing else. */
  ghost predicate FailsUnowed(c: Config, s: Sys, w: WorkerId) {
    && HasMessage(PcOf(s.pcs, w))
    && var m := PcOf(s.pcs, w).m;
       && m.job.Some? && m.job.value in s.rows && !Exhausted(s.rows[m.job.value], m.count)
       && !OwedWithout(c, s, m.job.value, w)
  }

  /** Some failed job is owed nothing but what the worker has in hand. */
  ghost predicate LastHope(c: Config, s: Sys, w: WorkerId) {
    exists j :: j in s.rows && s.rows[j].status == Failed && !OwedWithout(c, s, j, w)
  }

  /** Put back while its job is running, claimed after it was put back, marked failed with
      nothing owed, or lost with the worker that ran the job or was the last to hear of it. */
  ghost predicate Harmless(c: Config, s: Sys, e: Event)
    requires Enabled(c, s, e)
  {
    match e
    case Requeue(m) => forall w :: RunsAJob(s, w) ==> PcOf(s.pcs, w).m != m
    case Claim(w) => Wins(s, w) ==> PcOf(s.pcs, w).m in s.q.inflight
    case Finish(w, outcome) => outcome.Transient? ==> !FailsUnowed(c, s, w)
    case AckRaises(w, _) => !FailsUnowed(c, s, w)
    case Crash(w) => !RunsAJob(s, w) && !LastHope(c, s, w)
    case Drain(w) => !LastHope(c, s, w)
    case _ => true
  }

  // ---- running jobs keep their holder

  lemma Appears(c: Config, s: Sys, e: Event, j: JobId)
    requires Enabled(c, s, e) && j !in s.rows && j in Step(c, s, e).rows
    ensures e.Submit? && Step(c, s, e).rows[j].status == Queued
  {
  }

  lemma WhatActingDoes(c: Config, s: Sys, e: Event, v: WorkerId, j: JobId)
    requires Enabled(c, s, e) && ActsOn(s, e, v, j) && j in s.rows
    ensures var s' := Step(c, s, e);
            if e.Claim? && HasHandler(PcOf(s.pcs, v).m.kind) then
              s'.rows == Jobs.Claim(s.rows, j, v, LEASE_SECONDS, s.clock)
              && PcOf(s'.pcs, v) == if CanClaim(s.rows, j, s.clock) then Handling(PcOf(s.pcs, v).m) else Acking(PcOf(s.pcs, v).m, false)
            else j in s'.rows && s'.rows[j].status != Running
  {
  }

  /** A job starts running only in the hands of the worker that wins it. */
  lemma StartsRunning(c: Config, s: Sys, e: Event, j: JobId)
    requires RowsInv(s) && Enabled(c, s, e) && Harmless(c, s, e)
    requires j in Step(c, s, e).rows && Step(c, s, e).rows[j].status == Running
    requires j in s.rows ==> s.rows[j].status != Running
    ensures HasWayForward(c, Step(c, s, e), j)
  {
    if j !in s.rows {
      Appears(c, s, e, j);
    }
    var v := RowOtherwiseSame(c, s, e, j);
    WhatActingDoes(c, s, e, v, j);
    assert Wins(s, v) && e == Event.Claim(v);
    assert Step(c, s, e).q == s.q;
  }

  lemma StaysRunning(c: Config, s: Sys, e: Event, j: JobId)
    requires Inv(s) && Exclusive(s) && j in s.rows && s.rows[j].status == Running && HasWayForward(c, s, j)
    requires Enabled(c, s, e) && !LetsIn(s, e) && Harmless(c, s, e)
    requires j in Step(c, s, e).rows && Step(c, s, e).rows[j].status == Running
    ensures HasWayForward(c, Step(c, s, e), j)
  {
    var owner := s.rows[j].leaseOwner.value;
    assert HandlingJob(PcOf(s.pcs, owner), j) && ActiveOn(PcOf(s.pcs, owner), j) && RunsAJob(s, owner);
    if ActsOn(s, e, owner, j) {
      WhatActingDoes(c, s, e, owner, j);
    }
    HolderStays(c, s, e, owner, j);
    HeldStaysInFlight(c, s, e, owner);
    var v := RowOtherwiseSame(c, s, e, j);
    if ActsOn(s, e, v, j) {
      OneActor(s, e, owner, v, j, c);
      WhatActingDoes(c, s, e, v, j);
      ActiveBlocksClaims(c, s, owner, v, j);
    }
  }

  lemma HolderStays(c: Config, s: Sys, e: Event, owner: WorkerId, j: JobId)
    requires Enabled(c, s, e) && e != Crash(owner) && HandlingJob(PcOf(s.pcs, owner), j)
    requires !ActsOn(s, e, owner, j)
    ensures PcOf(Step(c, s, e).pcs, owner) == PcOf(s.pcs, owner)
  {
    hide Sent, Requeued, Taken, Acked, Extended;
  }

  /** A message in hand leaves the flight only by being put back: nobody else's ack names it. */
  lemma HeldStaysInFlight(c: Config, s: Sys, e: Event, w: WorkerId)
    requires HandlesInv(s) && Enabled(c, s, e) && PcOf(s.pcs, w).Handling? && PcOf(s.pcs, w).m in s.q.inflight
    requires e != Requeue(PcOf(s.pcs, w).m)
    ensures PcOf(s.pcs, w).m in Step(c, s, e).q.inflight
  {
    hide AfterClaim, AfterFinish, NotNewer;
    if e.Ack? {
      assert PcOf(s.pcs, e.w).m != PcOf(s.pcs, w).m;
    } else if e.Claim? {
      QueueUntouched(c, s, e);
    } else if e.Finish? {
      QueueUntouched(c, s, e);
    }
  }

  lemma QueueUntouched(c: Config, s: Sys, e: Event)
    requires Enabled(c, s, e) && (e.Claim? || e.Finish?)
    ensures Step(c, s, e).q == s.q
  {
  }

  // ---- failed jobs keep a message

  /** Where an owed message goes. */
  function NextSlot(c: Config, s: Sys, e: Event, p: Slot): Slot {
    match e
    case Enqueue(_, _) => if p.InReady? then InReady(p.i + 1) else p
    case EnqueueBare(_, _) => if p.InReady? then InReady(p.i + 1) else p
    case Requeue(m) => if p == InFlight(m) then InReady(|s.q.ready|) else p
    case _ => p
  }

  lemma OwedMessageStays(c: Config, s: Sys, e: Event, j: JobId, p: Slot)
    requires Enabled(c, s, e) && OwedAt(c, s, j, p)
    requires e.Receive? ==> p != InReady(|s.q.ready| - 1)
    ensures var s' := Step(c, s, e); var p' := NextSlot(c, s, e, p);
            Occupied(s'.q, p') && !p'.InDead? && At(s'.q, p') == At(s.q, p)
  {
  }

  lemma AckingComesFrom(c: Config, s: Sys, e: Event, w: WorkerId)
    requires Enabled(c, s, e)
    ensures var was, pc := PcOf(s.pcs, w), PcOf(Step(c, s, e).pcs, w);
            pc.Acking? ==> was == pc || ((e.Claim? || e.Finish?) && e.w == w && was.m == pc.m)
  {
    hide Requeued, Taken, Sent, Acked, Extended, MarkFailed, MarkDead, MarkSucceeded, ExtendLease;
  }

  /** Nobody turns to acking a message about a failed job: whoever claims it, wins it. */
  lemma NobodyTurnsToAcking(c: Config, s: Sys, e: Event, w: WorkerId, j: JobId)
    requires Inv(s) && Exclusive(s) && Enabled(c, s, e)
    requires j in s.rows && s.rows[j].status == Failed
    ensures var pc := PcOf(Step(c, s, e).pcs, w);
            pc.Acking? && pc.m.job == Some(j) ==> PcOf(s.pcs, w).Acking? && PcOf(s.pcs, w).m == pc.m
  {
    hide Requeued, Taken, Sent, Acked, Extended, QueueInv, HandlesInv;
    AckingComesFrom(c, s, e, w);
    if (e.Claim? || e.Finish?) && e.w == w {
      assert RowOk(s, j) && WorkerOk(s, PcOf(s.pcs, w)) && RowAgrees(s, w, j);
    }
  }

  lemma OwedAtStays(c: Config, s: Sys, e: Event, j: JobId, p: Slot)
    requires Inv(s) && Exclusive(s) && Enabled(c, s, e) && OwedAt(c, s, j, p)
    requires j in s.rows && s.rows[j].status == Failed
    requires e.Receive? ==> p != InReady(|s.q.ready| - 1)
    ensures OwedAt(c, Step(c, s, e), j, NextSlot(c, s, e, p))
  {
    hide AfterClaim, AfterFinish, Inv, Exclusive;
    var s' := Step(c, s, e);
    OwedMessageStays(c, s, e, j, p);
    forall w | PcOf(s'.pcs, w).Acking? ensures PcOf(s'.pcs, w).m != At(s.q, p) {
      NobodyTurnsToAcking(c, s, e, w, j);
    }
  }

  lemma OwedIsReceived(c: Config, s: Sys, w: WorkerId, j: JobId)
    requires Enabled(c, s, Receive(w)) && OwedAt(c, s, j, InReady(|s.q.ready| - 1))
    ensures AboutToClaim(PcOf(Step(c, s, Receive(w)).pcs, w), j)
  {
  }

  lemma ClaimantWins(c: Config, s: Sys, w: WorkerId, j: JobId)
    requires Inv(s) && j in s.rows && s.rows[j].status == Failed && AboutToClaim(PcOf(s.pcs, w), j)
    ensures Step(c, s, Event.Claim(w)).rows[j].status == Running
  {
    assert WorkerOk(s, PcOf(s.pcs, w)) && RowOk(s, j);
    WhatActingDoes(c, s, Event.Claim(w), w, j);
  }

  lemma StillAboutToClaim(c: Config, s: Sys, e: Event, w: WorkerId, j: JobId)
    requires Enabled(c, s, e) && AboutToClaim(PcOf(s.pcs, w), j)
    requires e != Event.Claim(w) && e != Crash(w) && e != Drain(w)
    ensures AboutToClaim(PcOf(Step(c, s, e).pcs, w), j)
  {
    hide Sent, Requeued, Taken, Acked, Extended;
  }

  /** A worker lets go of its message: it dies, drains, fails its job, or its ack raises. */
  predicate LetsGo(e: Event) { e.Crash? || e.Drain? || e.AckRaises? || (e.Finish? && e.outcome.Transient?) }

  /** What is owed once a worker has let go is what was owed without it. */
  lemma LetGo(c: Config, s: Sys, e: Event, j: JobId)
    requires Enabled(c, s, e) && LetsGo(e)
    ensures Owed(c, Step(c, s, e), j) <==> OwedWithout(c, s, j, e.w)
  {
    var s' := Step(c, s, e);
    WhatLettingGoDoes(c, s, e);
    forall p ensures OwedAt(c, s', j, p) <==> OwedAtWithout(c, s, j, p, e.w) {
      assert Occupied(s'.q, p) <==> Occupied(s.q, p);
    }
    forall v ensures AboutToClaim(PcOf(s'.pcs, v), j) <==> v != e.w && AboutToClaim(PcOf(s.pcs, v), j) {
    }
  }

  lemma WhatLettingGoDoes(c: Config, s: Sys, e: Event)
    requires Enabled(c, s, e) && LetsGo(e)
    ensures var s' := Step(c, s, e);
            && s'.q.ready == s.q.ready && s'.q.dead == s.q.dead && s'.q.inflight.Keys == s.q.inflight.Keys
            && !HasMessage(PcOf(s'.pcs, e.w)) && forall v :: v != e.w ==> PcOf(s'.pcs, v) == PcOf(s.pcs, v)
  {
    hide MarkFailed;
  }

  /** A worker that is neither about to claim nor owed its own message is not missed. */
  lemma NotMissed(c: Config, s: Sys, w: WorkerId, j: JobId)
    requires Owed(c, s, j) && !AboutToClaim(PcOf(s.pcs, w), j)
    ensures OwedWithout(c, s, j, w)
  {
    if p :| OwedAt(c, s, j, p) {
      assert OwedAtWithout(c, s, j, p, w);
    }
  }

  lemma StaysOwed(c: Config, s: Sys, e: Event, j: JobId)
    requires Inv(s) && Exclusive(s) && Enabled(c, s, e) && Harmless(c, s, e)
    requires j in s.rows && s.rows[j].status == Failed && Owed(c, s, j)
    requires j in Step(c, s, e).rows && Step(c, s, e).rows[j].status == Failed
    ensures Owed(c, Step(c, s, e), j)
  {
    if LetsGo(e) {
      LetGoHarmlessly(c, s, e, j);
    } else {
      HeldOn(c, s, e, j);
    }
  }

  lemma LetGoHarmlessly(c: Config, s: Sys, e: Event, j: JobId)
    requires Enabled(c, s, e) && Harmless(c, s, e) && LetsGo(e)
    requires j in s.rows && s.rows[j].status == Failed && Owed(c, s, j)
    ensures Owed(c, Step(c, s, e), j)
  {
    hide Owed, OwedWithout, Step;
    LetGo(c, s, e, j);
    if e.Finish? || e.AckRaises? {
      NotMissed(c, s, e.w, j);
    }
  }

  lemma HeldOn(c: Config, s: Sys, e: Event, j: JobId)
    requires Inv(s) && Exclusive(s) && Enabled(c, s, e) && !LetsGo(e)
    requires j in s.rows && s.rows[j].status == Failed && Owed(c, s, j)
    requires j in Step(c, s, e).rows && Step(c, s, e).rows[j].status == Failed
    ensures Owed(c, Step(c, s, e), j)
  {
    hide Inv, Exclusive, OwedAt, Step;
    if p :| OwedAt(c, s, j, p) {
      if e.Receive? && p == InReady(|s.q.ready| - 1) {
        OwedIsReceived(c, s, e.w, j);
      } else {
        OwedAtStays(c, s, e, j, p);
      }
    } else {
      var w :| AboutToClaim(PcOf(s.pcs, w), j);
      ClaimantWins(c, s, w, j);
      StillAboutToClaim(c, s, e, w, j);
    }
  }

  lemma StepKeepsForward(c: Config, s: Sys, e: Event)
    requires Inv(s) && Exclusive(s) && Forward(c, s) && Enabled(c, s, e) && !LetsIn(s, e) && Harmless(c, s, e)
    ensures Forward(c, Step(c, s, e))
  {
    hide Step, Harmless, Owed, Exclusive, LetsIn, LetsGo;
    var s' := Step(c, s, e);
    StepKeepsInv(c, s, e);
    forall j | j in s'.rows ensures HasWayForward(c, s', j) {
      assert RowOk(s', j);
      if s'.rows[j].status == Running {
        if j in s.rows && s.rows[j].status == Running {
          StaysRunning(c, s, e, j);
        } else {
          StartsRunning(c, s, e, j);
        }
      } else if s'.rows[j].status == Failed {
        if j in s.rows && s.rows[j].status == Failed {
          StaysOwed(c, s, e, j);
        } else {
          FailedIsOwed(c, s, e, j);
        }
      }
    }
  }

  /** A job turns failed only by a mark of the worker that ran it, or whose ack raised. */
  lemma FailedIsOwed(c: Config, s: Sys, e: Event, j: JobId)
    requires RowsInv(s) && Enabled(c, s, e) && Harmless(c, s, e)
    requires j in s.rows ==> s.rows[j].status != Failed
    requires j in Step(c, s, e).rows && Step(c, s, e).rows[j].status == Failed
    ensures Owed(c, Step(c, s, e), j)
  {
    hide Owed, OwedWithout;
    if j !in s.rows {
      Appears(c, s, e, j);
    }
    var w := RowOtherwiseSame(c, s, e, j);
    assert LetsGo(e) && e.w == w && (e.Finish? || e.AckRaises?);
    assert PcOf(s.pcs, w).m.job == Some(j) && !Exhausted(s.rows[j], PcOf(s.pcs, w).m.count);
    LetGo(c, s, e, j);
  }

  // ---- and harm is done

  lemma MarkedFailedUnowed(c: Config, s: Sys, e: Event)
    requires Exclusive(s) && Enabled(c, s, e) && LetsGo(e) && (e.Finish? || e.AckRaises?) && FailsUnowed(c, s, e.w)
    ensures !Forward(c, Step(c, s, e))
  {
    var j := PcOf(s.pcs, e.w).m.job.value;
    LetGo(c, s, e, j);
    var s' := Step(c, s, e);
    assert j in s'.rows && s'.rows[j].status == Failed && !HasWayForward(c, s', j);
  }

  lemma LostUnowed(c: Config, s: Sys, e: Event)
    requires Enabled(c, s, e) && (e.Crash? || e.Drain?) && LastHope(c, s, e.w)
    ensures !Forward(c, Step(c, s, e))
  {
    var j :| j in s.rows && s.rows[j].status == Failed && !OwedWithout(c, s, j, e.w);
    LetGo(c, s, e, j);
    assert j in Step(c, s, e).rows && !HasWayForward(c, Step(c, s, e), j);
  }

  lemma RunnerLost(c: Config, s: Sys, w: WorkerId)
    requires Exclusive(s) && RunsAJob(s, w)
    ensures !Forward(c, Step(c, s, Crash(w)))
  {
    var j := PcOf(s.pcs, w).m.job.value;
    assert RowAgrees(s, w, j);
    assert !HasWayForward(c, Step(c, s, Crash(w)), j);
  }

  lemma RunnersMessagePutBack(c: Config, s: Sys, w: WorkerId)
    requires Exclusive(s) && RunsAJob(s, w) && Enabled(c, s, Requeue(PcOf(s.pcs, w).m))
    ensures !Forward(c, Step(c, s, Requeue(PcOf(s.pcs, w).m)))
  {
    var j := PcOf(s.pcs, w).m.job.value;
    assert RowAgrees(s, w, j);
    assert !HasWayForward(c, Step(c, s, Requeue(PcOf(s.pcs, w).m)), j);
  }

  lemma ClaimedAfterPutBack(c: Config, s: Sys, w: WorkerId)
    requires Wins(s, w) && PcOf(s.pcs, w).m !in s.q.inflight
    ensures !Forward(c, Step(c, s, Event.Claim(w)))
  {
    var j := PcOf(s.pcs, w).m.job.value;
    assert !HasWayForward(c, Step(c, s, Event.Claim(w)), j);
  }

  lemma HarmIsDone(c: Config, s: Sys, e: Event)
    requires Exclusive(s) && Enabled(c, s, e) && !Harmless(c, s, e)
    ensures !Forward(c, Step(c, s, e))
  {
    hide Exclusive, Forward, FailsUnowed, LastHope, Step;
    match e
    case Requeue(m) =>
      var w :| RunsAJob(s, w) && PcOf(s.pcs, w).m == m;
      RunnersMessagePutBack(c, s, w);
    case Claim(w) => ClaimedAfterPutBack(c, s, w);
    case Finish(_, _) => MarkedFailedUnowed(c, s, e);
    case AckRaises(_, _) => MarkedFailedUnowed(c, s, e);
    case Crash(w) =>
      if RunsAJob(s, w) {
        RunnerLost(c, s, w);
      } else {
        LostUnowed(c, s, e);
      }
    case Drain(_) => LostUnowed(c, s, e);
  }

  /** A step takes some job's way forward if and only if it is not harmless. */
  lemma ForwardUnlessHarmed(c: Config, s: Sys, e: Event)
    requires Inv(s) && Exclusive(s) && Forward(c, s) && Enabled(c, s, e) && !LetsIn(s, e)
    ensures Forward(c, Step(c, s, e)) <==> Harmless(c, s, e)
  {
    hide Inv, Exclusive, Forward, Harmless, LetsIn, Step;
    if Harmless(c, s, e) {
      StepKeepsForward(c, s, e);
    } else {
      HarmIsDone(c, s, e);
    }
  }

  ghost predicate AlwaysForward(c: Config, s: Sys, es: seq<Event>)
    requires Runs(c, s, es)
    decreases |es|
  {
    Forward(c, s) && (es == [] || AlwaysForward(c, Step(c, s, es[0]), es[1..]))
  }

  ghost predicate AlwaysHarmless(c: Config, s: Sys, es: seq<Event>)
    requires Runs(c, s, es)
    decreases |es|
  {
    es == [] || (Harmless(c, s, es[0]) && AlwaysHarmless(c, Step(c, s, es[0]), es[1..]))
  }

  lemma {:induction false} ForwardFrom(c: Config, s: Sys, es: seq<Event>)
    requires Inv(s) && Exclusive(s) && Forward(c, s) && Runs(c, s, es) && NobodyLetIn(c, s, es)
    ensures AlwaysForward(c, s, es) <==> AlwaysHarmless(c, s, es)
    decreases |es|
  {
    hide Inv, Exclusive, Forward, Harmless, LetsIn, Step, Enabled;
    if es != [] {
      var next := Step(c, s, es[0]);
      ForwardUnlessHarmed(c, s, es[0]);
      if Harmless(c, s, es[0]) {
        StepKeepsInv(c, s, es[0]);
        StepKeepsExclusive(c, s, es[0]);
        ForwardFrom(c, next, es[1..]);
      } else {
        assert !AlwaysForward(c, next, es[1..]);
      }
    }
  }

  /** In every run in which nobody is let in beside a live worker, whatever the duplicates,
      expiries, heartbeats, reconciler sends, losses of workers and raising acks: every
      unfinished job has a way forward at every moment if and only if every event is
      harmless. */
  lemma NoJobStrandedIff(c: Config, clock: int, es: seq<Event>)
    requires Runs(c, Start(clock), es) && NobodyLetIn(c, Start(clock), es)
    ensures AlwaysForward(c, Start(clock), es) <==> AlwaysHarmless(c, Start(clock), es)
  {
    ForwardFrom(c, Start(clock), es);
  }

  // ---- timeouts and limits that make everything but lost workers and raising acks harmless

  predicate Holding(pc: Pc) { pc.Polled? || pc.Handling? }

  /** No message in a worker's hands has passed its visibility deadline. */
  ghost predicate MessageLeasesKept(s: Sys) {
    forall w :: Holding(PcOf(s.pcs, w)) ==> !Expired(s.q, PcOf(s.pcs, w).m, s.clock)
  }

  ghost predicate HeldInFlight(s: Sys) {
    forall w :: Holding(PcOf(s.pcs, w)) ==> PcOf(s.pcs, w).m in s.q.inflight
  }

  /** No job may be attempted more often than the queue delivers. */
  predicate Bounded(c: Config, s: Sys) {
    forall j :: j in s.rows ==> s.rows[j].maxAttempts <= c.maxReceiveCount
  }

  /** Jobs are bounded, and losing a worker or an ack is harmless. */
  ghost predicate Orderly(c: Config, s: Sys, e: Event)
    requires Enabled(c, s, e)
  {
    && (e.Submit? ==> e.maxAttempts <= c.maxReceiveCount)
    && (e.Crash? || e.Drain? || e.AckRaises? ==> Harmless(c, s, e))
  }

  ghost predicate WellRun(c: Config, s: Sys, es: seq<Event>)
    requires Runs(c, s, es)
    decreases |es|
  {
    es == [] ||
    (!LetsIn(s, es[0]) && MessageLeasesKept(s) && Orderly(c, s, es[0]) && WellRun(c, Step(c, s, es[0]), es[1..]))
  }

  lemma StepKeepsHeld(c: Config, s: Sys, e: Event)
    requires Inv(s) && HeldInFlight(s) && MessageLeasesKept(s) && Enabled(c, s, e)
    ensures HeldInFlight(Step(c, s, e))
  {
    var s' := Step(c, s, e);
    forall w | Holding(PcOf(s'.pcs, w)) ensures PcOf(s'.pcs, w).m in s'.q.inflight {
      if e == Receive(w) {
        ReceivedHandle(c, s, w);
      } else {
        SameMessage(c, s, e, w);
        StillHolding(c, s, e, w);
        if e.Ack? {
          assert PcOf(s.pcs, e.w).m != PcOf(s.pcs, w).m;
        }
      }
    }
  }

  lemma StillHolding(c: Config, s: Sys, e: Event, w: WorkerId)
    requires Enabled(c, s, e) && e != Receive(w) && Holding(PcOf(Step(c, s, e).pcs, w))
    ensures Holding(PcOf(s.pcs, w))
  {
  }

  lemma StepKeepsBounded(c: Config, s: Sys, e: Event)
    requires Enabled(c, s, e) && Orderly(c, s, e) && Bounded(c, s)
    ensures Bounded(c, Step(c, s, e))
  {
    hide Sent, Requeued, Taken, Acked, Extended, Harmless;
  }

  /** A job turns failed, not dead, only with deliveries left for the message in hand: the
      point of taking the larger of receive count and attempt. */
  lemma FailingIsHarmless(c: Config, s: Sys, w: WorkerId)
    requires Inv(s) && HeldInFlight(s) && Bounded(c, s) && PcOf(s.pcs, w).Handling?
    ensures !FailsUnowed(c, s, w)
  {
    var m := PcOf(s.pcs, w).m;
    if m.job.Some? && m.job.value in s.rows && !Exhausted(s.rows[m.job.value], m.count) {
      assert OwedAtWithout(c, s, m.job.value, InFlight(m), w);
    }
  }

  lemma OrderlyIsHarmless(c: Config, s: Sys, e: Event)
    requires Inv(s) && HeldInFlight(s) && Bounded(c, s) && MessageLeasesKept(s)
    requires Enabled(c, s, e) && Orderly(c, s, e)
    ensures Harmless(c, s, e)
  {
    hide FailsUnowed, LastHope, Inv;
    if e.Finish? {
      FailingIsHarmless(c, s, e.w);
    }
  }

  lemma {:induction false} WellRunIsHarmless(c: Config, s: Sys, es: seq<Event>)
    requires Inv(s) && HeldInFlight(s) && Bounded(c, s) && Runs(c, s, es) && WellRun(c, s, es)
    ensures AlwaysHarmless(c, s, es) && NobodyLetIn(c, s, es)
    decreases |es|
  {
    hide Inv, HeldInFlight, Bounded, MessageLeasesKept, Orderly, Harmless, LetsIn, Step, Enabled;
    if es != [] {
      OrderlyIsHarmless(c, s, es[0]);
      StepKeepsInv(c, s, es[0]);
      StepKeepsHeld(c, s, es[0]);
      StepKeepsBounded(c, s, es[0]);
      WellRunIsHarmless(c, Step(c, s, es[0]), es[1..]);
    }
  }

  lemma {:induction false} AtTheEnd(c: Config, s: Sys, es: seq<Event>)
    requires Runs(c, s, es) && AlwaysForward(c, s, es)
    ensures Forward(c, After(c, s, es))
    decreases |es|
  {
    if es != [] {
      AtTheEnd(c, Step(c, s, es[0]), es[1..]);
    }
  }

  /** So with message leases kept and jobs bounded by the queue's limit, every unfinished job
      has a way forward unless a worker or an ack is lost harmfully. */
  lemma NoJobStranded(c: Config, clock: int, es: seq<Event>, j: JobId)
    requires Runs(c, Start(clock), es) && WellRun(c, Start(clock), es)
    requires j in After(c, Start(clock), es).rows
    ensures HasWayForward(c, After(c, Start(clock), es), j)
  {
    WellRunIsHarmless(c, Start(clock), es);
    NoJobStrandedIff(c, clock, es);
    AtTheEnd(c, Start(clock), es);
  }

  // ---- recovery

  function Wait(s: Sys, m: Message): nat
    requires m in s.q.inflight
  {
    if s.q.inflight[m] > s.clock then s.q.inflight[m] - s.clock else 0
  }

  /** Message m, visible again d seconds ago, is put back and received. */
  function Redelivering(s: Sys, m: Message, w: WorkerId, d: nat): seq<Event>
    requires m in s.q.inflight
  {
    [Tick(Wait(s, m) + d), Requeue(m), Receive(w)]
  }

  lemma RedeliveringRuns(c: Config, s: Sys, m: Message, w: WorkerId, d: nat)
    requires m in s.q.inflight && s.q.inflight[m] >= 0 && m.count < c.maxReceiveCount && PcOf(s.pcs, w).Idle?
    ensures Runs(c, s, Redelivering(s, m, w, d))
    ensures var now := s.clock + Wait(s, m) + d;
            After(c, s, Redelivering(s, m, w, d)) ==
              s.(clock := now, pcs := s.pcs[w := Polled(Redelivery(m))],
                 q := State(s.q.ready, (s.q.inflight - {m})[Redelivery(m) := now + c.visibilityTimeout], s.q.dead))
  {
    var now := s.clock + Wait(s, m) + d;
    var s1 := s.(clock := now);
    var s2 := s1.(q := State(s.q.ready + [m], s.q.inflight - {m}, s.q.dead));
    assert s1 == Step(c, s, Tick(Wait(s, m) + d)) && s2 == Step(c, s1, Requeue(m));
    ReceivesLast(c, s2, s.q.ready, m, w);
    RunsTwo(c, s1, Requeue(m), Receive(w));
    RunsCons(c, s, Tick(Wait(s, m) + d), [Requeue(m), Receive(w)]);
    assert Redelivering(s, m, w, d) == [Tick(Wait(s, m) + d)] + [Requeue(m), Receive(w)];
  }

  lemma ReceivesLast(c: Config, s: Sys, ready: seq<Message>, m: Message, w: WorkerId)
    requires s.q.ready == ready + [m] && m.count < c.maxReceiveCount && PcOf(s.pcs, w).Idle?
    ensures Enabled(c, s, Receive(w))
    ensures Step(c, s, Receive(w)) ==
              s.(pcs := s.pcs[w := Polled(Redelivery(m))],
                 q := State(ready, s.q.inflight[Redelivery(m) := s.clock + c.visibilityTimeout], s.q.dead))
  {
    assert ButLast(ready + [m]) == ready;
  }

  /** Once a worker has died in the handler, a redelivery of its message, claimed any time d
      after the message is visible again, recovers the job if and only if the job has an
      attempt left and the row's lease has lapsed by then. */
  lemma RedeliveryRecoversIff(c: Config, s: Sys, j: JobId, m: Message, w: WorkerId, d: nat)
    requires Inv(s) && m in s.q.inflight && s.q.inflight[m] >= 0
    requires m.job == Some(j) && m.count < c.maxReceiveCount && PcOf(s.pcs, w).Idle?
    requires j in s.rows && s.rows[j].status == Running
    ensures Runs(c, s, Redelivering(s, m, w, d)) && Enabled(c, After(c, s, Redelivering(s, m, w, d)), Event.Claim(w))
    ensures var s' := Step(c, After(c, s, Redelivering(s, m, w, d)), Event.Claim(w));
            && (HandlingJob(PcOf(s'.pcs, w), j)
                <==> s.rows[j].attempt < s.rows[j].maxAttempts && LeaseLapsed(s.rows[j], s.clock + Wait(s, m) + d))
            && (HandlingJob(PcOf(s'.pcs, w), j) ==> j in s'.rows && HasWayForward(c, s', j))
  {
    hide Requeued, Taken, HandlesInv, WorkersInv, Redelivering;
    assert RowOk(s, j) && MessageOk(s, At(s.q, InFlight(m)));
    RedeliveringRuns(c, s, m, w, d);
  }

  // ---- stranded for good

  /** Unfinished, never to be sent again by the reconciler, and no message left for it. */
  ghost predicate Stranded(c: Config, s: Sys, j: JobId) {
    && j in s.rows && !Terminal(s.rows[j]) && s.rows[j].attempt > 0
    && s.q.ready == [] && s.q.inflight == map[]
    && forall w :: !HasMessage(PcOf(s.pcs, w))
  }

  predicate OnlyExpired(s: Sys, m: Message) {
    && s.q.ready == [] && s.q.dead == []
    && s.q.inflight.Keys == {m} && 0 <= s.q.inflight[m] <= s.clock
  }

  /** The only message in flight expires and is given to another worker. */
  lemma Redelivered(c: Config, clock: nat, s: Sys, m: Message, w: WorkerId) returns (s': Sys)
    requires Reachable(c, clock, s) && OnlyExpired(s, m)
    requires m.count < c.maxReceiveCount && PcOf(s.pcs, w) == Idle
    ensures Reachable(c, clock, s')
    ensures s' == s.(q := State([], map[Redelivery(m) := s.clock + c.visibilityTimeout], []),
                     pcs := s.pcs[w := Polled(Redelivery(m))])
  {
    s' := BackInReady(c, clock, s, m);
    s' := Onward(c, clock, s', Receive(w));
  }

  lemma BackInReady(c: Config, clock: nat, s: Sys, m: Message) returns (s': Sys)
    requires Reachable(c, clock, s) && OnlyExpired(s, m)
    ensures Reachable(c, clock, s') && s' == s.(q := State([m], map[], []))
  {
    s' := Onward(c, clock, s, Requeue(m));
    assert s'.q.inflight == map[];
  }

  // The job's one message after n deliveries, and its row after n attempts.

  function Wakeup(j: JobId, n: nat): Message { Message(0, "transcribe", Some(j), "", n) }

  predicate Attempted(s: Sys, j: JobId, status: Status, n: nat, maxAttempts: int) {
    j in s.rows && s.rows[j].status == status && s.rows[j].attempt == n && s.rows[j].maxAttempts == maxAttempts
  }

  ghost predicate InHandler(c: Config, clock: nat, s: Sys, j: JobId, n: nat, maxAttempts: int) {
    && Reachable(c, clock, s) && s.clock >= clock && Attempted(s, j, Running, n, maxAttempts)
    && s.rows[j].leaseExpiresAt == Some(s.clock + LEASE_SECONDS)
    && s.q == State([], map[Wakeup(j, n) := s.clock + c.visibilityTimeout], [])
    && s.pcs == map["w1" := Handling(Wakeup(j, n))]
  }

  ghost predicate FailedAndVisible(c: Config, clock: nat, s: Sys, j: JobId, n: nat, maxAttempts: int) {
    && Reachable(c, clock, s) && s.clock >= clock && Attempted(s, j, Failed, n, maxAttempts)
    && s.q == State([], map[Wakeup(j, n) := s.clock], []) && s.pcs == map["w1" := Idle]
  }

  lemma {:induction false} TriedTimes(c: Config, clock: nat, j: JobId, n: nat, maxAttempts: int, exc: Failure) returns (s: Sys)
    requires 1 <= n <= maxAttempts && n <= c.maxReceiveCount && c.visibilityTimeout >= 0
    ensures InHandler(c, clock, s, j, n, maxAttempts)
    decreases n, 0
  {
    if n == 1 {
      s := OneHandled(c, clock, j, "w1", maxAttempts);
    } else {
      s := FailedTimes(c, clock, j, n - 1, maxAttempts, exc);
      s := Redelivered(c, clock, s, Wakeup(j, n - 1), "w1");
      s := ClaimsAgain(c, clock, s, j, n, maxAttempts);
    }
  }

  lemma ClaimsAgain(c: Config, clock: nat, s: Sys, j: JobId, n: nat, maxAttempts: int) returns (s': Sys)
    requires Reachable(c, clock, s) && s.clock >= clock && 1 < n <= maxAttempts && Attempted(s, j, Failed, n - 1, maxAttempts)
    requires s.q == State([], map[Wakeup(j, n) := s.clock + c.visibilityTimeout], []) && s.pcs == map["w1" := Polled(Wakeup(j, n))]
    ensures InHandler(c, clock, s', j, n, maxAttempts)
  {
    s' := Onward(c, clock, s, Event.Claim("w1"));
  }

  lemma {:induction false} FailedTimes(c: Config, clock: nat, j: JobId, n: nat, maxAttempts: int, exc: Failure) returns (s: Sys)
    requires 1 <= n < maxAttempts && n <= c.maxReceiveCount && c.visibilityTimeout >= 0
    ensures FailedAndVisible(c, clock, s, j, n, maxAttempts)
    decreases n, 1
  {
    s := TriedTimes(c, clock, j, n, maxAttempts, exc);
    s := FailsAgain(c, clock, s, j, n, maxAttempts, exc);
    s := Onward(c, clock, s, Tick(c.visibilityTimeout));
  }

  lemma FailsAgain(c: Config, clock: nat, s: Sys, j: JobId, n: nat, maxAttempts: int, exc: Failure) returns (s': Sys)
    requires InHandler(c, clock, s, j, n, maxAttempts) && n < maxAttempts
    ensures Reachable(c, clock, s') && s'.clock == s.clock && s'.q == s.q && s'.pcs == map["w1" := Idle]
    ensures Attempted(s', j, Failed, n, maxAttempts)
  {
    s' := Onward(c, clock, s, Finish("w1", Transient(exc)));
  }

  /** Draining a worker that has received the last delivery: the job can still be claimed, but
      its message goes to the dead letters. Whatever the limit, from two deliveries on. */
  lemma DrainingLastDeliveryStrands(c: Config, clock: nat, j: JobId, maxAttempts: int, exc: Failure) returns (s: Sys)
    requires 2 <= c.maxReceiveCount <= maxAttempts && c.visibilityTimeout >= 0
    ensures Reachable(c, clock, s) && Stranded(c, s, j) && CanClaim(s.rows, j, s.clock)
  {
    var n := c.maxReceiveCount - 1;
    s := FailedTimes(c, clock, j, n, maxAttempts, exc);
    s := Redelivered(c, clock, s, Wakeup(j, n), "w2");
    assert Redelivery(Wakeup(j, n)) == Wakeup(j, n + 1);
    s := DrainedAway(c, clock, s, Wakeup(j, n + 1));
  }

  lemma DrainedAway(c: Config, clock: nat, s: Sys, m: Message) returns (s': Sys)
    requires Reachable(c, clock, s) && s.clock >= 0 && m.count == c.maxReceiveCount
    requires s.q.ready == [] && s.q.dead == [] && s.q.inflight.Keys == {m} && s.pcs == map["w1" := Idle, "w2" := Polled(m)]
    ensures Reachable(c, clock, s') && s'.rows == s.rows && s'.clock == s.clock
    ensures s'.q.ready == [] && s'.q.inflight == map[] && forall w :: !HasMessage(PcOf(s'.pcs, w))
  {
    s' := HandedBack(c, clock, s, m);
    s' := Onward(c, clock, s', Bury);
  }

  lemma HandedBack(c: Config, clock: nat, s: Sys, m: Message) returns (s': Sys)
    requires Reachable(c, clock, s) && s.clock >= 0
    requires s.q.ready == [] && s.q.inflight.Keys == {m} && PcOf(s.pcs, "w2") == Polled(m)
    ensures Reachable(c, clock, s')
    ensures s' == s.(q := State([m], map[], s.q.dead), pcs := s.pcs["w2" := Gone])
  {
    s' := Onward(c, clock, s, Drain("w2"));
    assert s'.q.inflight == map[m := s.clock];
    s' := Onward(c, clock, s', Requeue(m));
    assert s'.q.inflight == map[];
  }

  /** A worker that dies in the handler, in the n-th attempt, its message delivered n times;
      the message's expiry is noticed d seconds after it is visible again. This run strands the
      job as running when the row's lease has not lapsed by then, as with the default timeouts
      of 300 seconds each and d == 0: the redelivery finds the row leased and is acked. So it
      does when no delivery is left: the message is buried. And so it does, whatever the times,
      when no attempt is left: the redelivery is acked even after the lapse. */
  lemma CrashInHandlerStrands(c: Config, clock: nat, j: JobId, n: nat, maxAttempts: int, exc: Failure, d: nat) returns (s: Sys)
    requires 1 <= n <= maxAttempts && n <= c.maxReceiveCount && c.visibilityTimeout >= 0
    requires c.visibilityTimeout + d <= LEASE_SECONDS || n == c.maxReceiveCount || n == maxAttempts
    ensures Reachable(c, clock, s) && Stranded(c, s, j) && Attempted(s, j, Running, n, maxAttempts)
  {
    s := Abandoned(c, clock, j, n, maxAttempts, exc, d);
    if n == c.maxReceiveCount {
      s := Buried(c, clock, s, Wakeup(j, n));
    } else {
      s := Redelivered(c, clock, s, Wakeup(j, n), "w2");
      s := RefusedAndAcked(c, clock, s, j, Redelivery(Wakeup(j, n)));
    }
  }

  /** In every other case the same run brings the job back, as with the default timeouts and
      d >= 1: the second worker wins the next attempt, with the message in flight. */
  lemma CrashInHandlerRecovers(c: Config, clock: nat, j: JobId, n: nat, maxAttempts: int, exc: Failure, d: nat) returns (s: Sys)
    requires 1 <= n < maxAttempts && n < c.maxReceiveCount && c.visibilityTimeout + d > LEASE_SECONDS
    requires c.visibilityTimeout >= 0
    ensures Reachable(c, clock, s) && Attempted(s, j, Running, n + 1, maxAttempts)
    ensures HandlingJob(PcOf(s.pcs, "w2"), j) && HasWayForward(c, s, j)
  {
    s := Abandoned(c, clock, j, n, maxAttempts, exc, d);
    s := Redelivered(c, clock, s, Wakeup(j, n), "w2");
    s := ClaimedByTheSecond(c, clock, s, j, n, maxAttempts);
  }

  lemma ClaimedByTheSecond(c: Config, clock: nat, s: Sys, j: JobId, n: nat, maxAttempts: int) returns (s': Sys)
    requires Reachable(c, clock, s) && n < maxAttempts && Attempted(s, j, Running, n, maxAttempts)
    requires LeaseLapsed(s.rows[j], s.clock) && s.pcs == map["w1" := Gone, "w2" := Polled(Wakeup(j, n + 1))]
    requires Wakeup(j, n + 1) in s.q.inflight
    ensures Reachable(c, clock, s') && Attempted(s', j, Running, n + 1, maxAttempts)
    ensures HandlingJob(PcOf(s'.pcs, "w2"), j) && HasWayForward(c, s', j)
  {
    s' := Onward(c, clock, s, Event.Claim("w2"));
  }

  /** After a crash in the last attempt nothing can ever run the job again. */
  lemma CrashOnLastAttemptStrands(c: Config, clock: nat, j: JobId, maxAttempts: nat, exc: Failure) returns (s: Sys)
    requires 1 <= maxAttempts <= c.maxReceiveCount && c.visibilityTimeout >= 0
    ensures Reachable(c, clock, s) && Stranded(c, s, j) && s.rows[j].status == Running
    ensures forall now :: !CanClaim(s.rows, j, now)
  {
    s := CrashInHandlerStrands(c, clock, j, maxAttempts, maxAttempts, exc, 0);
  }

  lemma Abandoned(c: Config, clock: nat, j: JobId, n: nat, maxAttempts: int, exc: Failure, d: nat) returns (s: Sys)
    requires 1 <= n <= maxAttempts && n <= c.maxReceiveCount && c.visibilityTimeout >= 0
    ensures Reachable(c, clock, s) && s.clock >= clock && Attempted(s, j, Running, n, maxAttempts)
    ensures LeaseLapsed(s.rows[j], s.clock) <==> c.visibilityTimeout + d > LEASE_SECONDS
    ensures OnlyExpired(s, Wakeup(j, n)) && s.pcs == map["w1" := Gone]
  {
    s := TriedTimes(c, clock, j, n, maxAttempts, exc);
    s := Onward(c, clock, s, Crash("w1"));
    s := Onward(c, clock, s, Tick(c.visibilityTimeout + d));
  }

  lemma RefusedAndAcked(c: Config, clock: nat, s: Sys, j: JobId, m: Message) returns (s': Sys)
    requires Reachable(c, clock, s) && !CanClaim(s.rows, j, s.clock)
    requires s.q.ready == [] && s.q.inflight.Keys == {m} && s.pcs == map["w1" := Gone, "w2" := Polled(m)]
    requires m.job == Some(j) && HasHandler(m.kind)
    ensures Reachable(c, clock, s') && s'.rows == s.rows
    ensures s'.q.ready == [] && s'.q.inflight == map[] && forall w :: !HasMessage(PcOf(s'.pcs, w))
  {
    s' := Onward(c, clock, s, Event.Claim("w2"));
    s' := Onward(c, clock, s', Ack("w2"));
    assert s'.q.inflight == map[];
  }

  /** A queue that delivers less often than a job may be attempted, whatever both limits. */
  lemma TooFewDeliveriesStrand(c: Config, clock: nat, j: JobId, maxAttempts: int, exc: Failure) returns (s: Sys)
    requires 1 <= c.maxReceiveCount < maxAttempts && c.visibilityTimeout >= 0
    ensures Reachable(c, clock, s) && Stranded(c, s, j) && CanClaim(s.rows, j, s.clock)
  {
    s := FailedTimes(c, clock, j, c.maxReceiveCount, maxAttempts, exc);
    s := Buried(c, clock, s, Wakeup(j, c.maxReceiveCount));
  }

  lemma Buried(c: Config, clock: nat, s: Sys, m: Message) returns (s': Sys)
    requires Reachable(c, clock, s) && OnlyExpired(s, m)
    requires m.count == c.maxReceiveCount
    ensures Reachable(c, clock, s')
    ensures s' == s.(q := State([], map[], [Redelivery(m)]))
  {
    s' := BackInReady(c, clock, s, m);
    s' := Onward(c, clock, s', Bury);
  }
}
