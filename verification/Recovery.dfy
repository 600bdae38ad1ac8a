/**
 What can still become of a job (edlo/jobs/__init__.py, apps/worker/main.py,
 edlo/queue/rq_queue.py).

 From here on nothing is sent but what the reconciler sends: stale jobs that were never
 claimed. A job can still succeed, in some continuation of the run, if and only if it is
 `Recoverable`, which can be read off the state. A way forward is therefore one indeed, and
 a stranded job is lost.
 */
module Recovery {
  import opened Wrappers
  import opened Jobs
  import opened Queue
  import opened Protocol
  import opened Leases
  import opened Stranding

  // ---- continuations

  /** Jobs are sent only as the reconciler sends them. */
  predicate Reconciled(s: Sys, e: Event) {
    e.Enqueue? ==> e.j in s.rows && StaleQueued(s.rows[e.j], s.clock - STALE_AFTER)
  }

  ghost predicate Continues(c: Config, s: Sys, es: seq<Event>)
    decreases |es|
  {
    es == [] || (Enabled(c, s, es[0]) && Reconciled(s, es[0]) && Continues(c, Step(c, s, es[0]), es[1..]))
  }

  predicate HasSucceeded(s: Sys, j: JobId) { j in s.rows && s.rows[j].status == Succeeded }

  lemma {:induction false} ContinuationsRun(c: Config, s: Sys, es: seq<Event>)
    requires Continues(c, s, es)
    ensures Runs(c, s, es)
    decreases |es|
  {
    if es != [] {
      ContinuationsRun(c, Step(c, s, es[0]), es[1..]);
    }
  }

  ghost predicate SucceedsBy(c: Config, s: Sys, es: seq<Event>, j: JobId) {
    Continues(c, s, es) && Runs(c, s, es) && HasSucceeded(After(c, s, es), j)
  }

  ghost predicate CanSucceed(c: Config, s: Sys, j: JobId) {
    exists es :: SucceedsBy(c, s, es, j)
  }

  // ---- what decides it

  /** A message for the job will be given out, or has been and not been looked at. */
  ghost predicate Deliverable(c: Config, s: Sys, j: JobId) {
    || (exists p :: AwaitsAt(c, s, j, p))
    || (exists w :: AboutToClaim(PcOf(s.pcs, w), j))
  }

  ghost predicate AwaitsAt(c: Config, s: Sys, j: JobId, p: Slot) {
    && Occupied(s.q, p) && !p.InDead?
    && At(s.q, p).job == Some(j) && At(s.q, p).count < c.maxReceiveCount
  }

  /** A worker that ran the job to success has its ack before it, and an ack that raises would
      turn the row, whatever it says by now, to failed. */
  predicate Revives(s: Sys, w: WorkerId, j: JobId)
    requires j in s.rows
  {
    var pc := PcOf(s.pcs, w);
    pc.Acking? && pc.succeeded && pc.m.job == Some(j) && !Exhausted(s.rows[j], pc.m.count)
  }

  /** Some worker runs the job; or it has an attempt left, is not over or may be revived, and
      there is a message for it or the reconciler will send one. */
  ghost predicate Recoverable(c: Config, s: Sys, j: JobId) {
    j in s.rows &&
    var job := s.rows[j];
    || job.status == Succeeded
    || (exists w :: HandlingJob(PcOf(s.pcs, w), j))
    || (&& HasHandler(job.kind) && job.attempt < job.maxAttempts
        && (Terminal(job) ==> exists w :: Revives(s, w, j))
        && (Deliverable(c, s, j) || (job.status == Queued && c.maxReceiveCount > 0)))
  }

  // ---- a job that is not recoverable never becomes so

  /** The reconciler is about to send the job, or it is deliverable already. */
  ghost predicate Coming(c: Config, s: Sys, j: JobId)
    requires j in s.rows
  {
    Deliverable(c, s, j) || (s.rows[j].status == Queued && c.maxReceiveCount > 0)
  }

  /** Where the slot's message was before the step. */
  function Before(c: Config, s: Sys, e: Event, p: Slot): Slot
    requires Enabled(c, s, e)
  {
    match e
    case Enqueue(_, _) => BeforeSent(p)
    case EnqueueBare(_, _) => BeforeSent(p)
    case Requeue(m) => BeforeRequeued(s.q, m, p)
    case Bury => BeforeTaken(s.q, c.maxReceiveCount, p)
    case Receive(_) => BeforeTaken(s.q, c.maxReceiveCount, p)
    case _ => p
  }

  lemma AwaitedBefore(c: Config, s: Sys, e: Event, j: JobId, p: Slot)
    requires Enabled(c, s, e) && Reconciled(s, e) && j in s.rows && AwaitsAt(c, Step(c, s, e), j, p)
    ensures Coming(c, s, j)
  {
    if e.Enqueue? || e.EnqueueBare? {
      if !(e.Enqueue? && e.j == j && p == InReady(0)) {
        assert AwaitsAt(c, s, j, Before(c, s, e, p));
      }
    } else if e.Requeue? || e.Bury? || e.Receive? {
      MovedBefore(c, s, e, j, p);
    } else {
      LeavesOthers(c, s, e);
      assert AwaitsAt(c, s, j, p);
    }
  }

  lemma MovedBefore(c: Config, s: Sys, e: Event, j: JobId, p: Slot)
    requires Enabled(c, s, e) && (e.Requeue? || e.Bury? || e.Receive?) && AwaitsAt(c, Step(c, s, e), j, p)
    ensures AwaitsAt(c, s, j, Before(c, s, e, p))
  {
  }

  /** Every other step only rescores or removes. */
  lemma LeavesOthers(c: Config, s: Sys, e: Event)
    requires Enabled(c, s, e) && !(e.Enqueue? || e.EnqueueBare? || e.Requeue? || e.Bury? || e.Receive?)
    ensures var q := Step(c, s, e).q; q.ready == s.q.ready && q.inflight.Keys <= s.q.inflight.Keys
  {
  }

  lemma HeardBefore(c: Config, s: Sys, e: Event, j: JobId, w: WorkerId)
    requires Enabled(c, s, e) && AboutToClaim(PcOf(Step(c, s, e).pcs, w), j)
    ensures Deliverable(c, s, j)
  {
    if e == Receive(w) {
      assert AwaitsAt(c, s, j, InReady(|s.q.ready| - 1));
    } else {
      assert PcOf(Step(c, s, e).pcs, w) == PcOf(s.pcs, w);
    }
  }

  lemma DeliverableBefore(c: Config, s: Sys, e: Event, j: JobId)
    requires Enabled(c, s, e) && Reconciled(s, e) && j in s.rows && Deliverable(c, Step(c, s, e), j)
    ensures Coming(c, s, j)
  {
    hide Step, Enabled;
    var s' := Step(c, s, e);
    if p :| AwaitsAt(c, s', j, p) {
      AwaitedBefore(c, s, e, j, p);
    } else {
      var w :| AboutToClaim(PcOf(s'.pcs, w), j);
      HeardBefore(c, s, e, j, w);
    }
  }

  /** Only a worker acting on the job changes anything that matters here. */
  lemma RowSameUnlessActed(c: Config, s: Sys, e: Event, j: JobId)
    requires Enabled(c, s, e) && RowsInv(s) && j in s.rows && j in Step(c, s, e).rows
    requires forall w :: !ActsOn(s, e, w, j)
    ensures var before, now := s.rows[j], Step(c, s, e).rows[j];
            && before.status == now.status && before.attempt == now.attempt
            && before.maxAttempts == now.maxAttempts && before.kind == now.kind
  {
    hide Sent, Requeued, Taken, Acked, Extended, Expired, OverLimit, AfterClaim, AfterFinish, RowsInv, MarkedFailed;
    RowIsKnown(s, j);
    match e
    case Claim(w) => assert !ActsOn(s, e, w, j); ClaimElsewhere(s, w, PcOf(s.pcs, w).m, j);
    case Finish(w, _) => assert !ActsOn(s, e, w, j); FinishElsewhere(s, w, PcOf(s.pcs, w).m, e.outcome, j);
    case AckRaises(w, _) => assert !ActsOn(s, e, w, j);
    case _ =>
  }

  lemma ActiveBefore(c: Config, s: Sys, e: Event, j: JobId, w: WorkerId)
    requires Enabled(c, s, e) && ActiveOn(PcOf(Step(c, s, e).pcs, w), j) && !ActsOn(s, e, w, j)
    ensures PcOf(s.pcs, w) == PcOf(Step(c, s, e).pcs, w)
  {
    hide Sent, Requeued, Taken, Acked, Extended, Expired, OverLimit, Jobs.Claim, MarkSucceeded, MarkFailed, MarkDead, CanClaim;
  }

  lemma UntouchedBefore(c: Config, s: Sys, e: Event, j: JobId)
    requires RowsInv(s) && Enabled(c, s, e) && Reconciled(s, e) && Recoverable(c, Step(c, s, e), j)
    requires j in s.rows && forall w :: !ActsOn(s, e, w, j)
    ensures Recoverable(c, s, j)
  {
    hide Step, Enabled, RowsInv, Deliverable, ActsOn;
    var s' := Step(c, s, e);
    RowSameUnlessActed(c, s, e, j);
    forall w | ActiveOn(PcOf(s'.pcs, w), j) ensures PcOf(s.pcs, w) == PcOf(s'.pcs, w) {
      ActiveBefore(c, s, e, j, w);
    }
    if w :| HandlingJob(PcOf(s'.pcs, w), j) {
      assert HandlingJob(PcOf(s.pcs, w), j);
    } else if s'.rows[j].status != Succeeded {
      if Terminal(s'.rows[j]) {
        var w :| Revives(s', w, j);
        assert Revives(s, w, j);
      }
      if Deliverable(c, s', j) {
        DeliverableBefore(c, s, e, j);
      }
    }
  }

  lemma ClaimedBefore(c: Config, s: Sys, v: WorkerId, j: JobId)
    requires Inv(s) && j in s.rows && PcOf(s.pcs, v).Polled? && PcOf(s.pcs, v).m.job == Some(j)
    requires Recoverable(c, Step(c, s, Event.Claim(v)), j)
    ensures Recoverable(c, s, j)
  {
    hide Inv;
    var s' := Step(c, s, Event.Claim(v));
    assert RowOk(s, j) && WorkerOk(s, PcOf(s.pcs, v)) by { KnownFacts(s, j, v); }
    assert AboutToClaim(PcOf(s.pcs, v), j);
    forall w | ActiveOn(PcOf(s'.pcs, w), j) && w != v ensures PcOf(s.pcs, w) == PcOf(s'.pcs, w) {
    }
    if w :| w != v && HandlingJob(PcOf(s'.pcs, w), j) {
      assert HandlingJob(PcOf(s.pcs, w), j);
    } else if w :| w != v && Revives(s', w, j) {
      assert s.rows[j] == s'.rows[j] ==> Revives(s, w, j);
    }
  }

  lemma KnownFacts(s: Sys, j: JobId, v: WorkerId)
    requires Inv(s) && j in s.rows
    ensures RowOk(s, j) && WorkerOk(s, PcOf(s.pcs, v))
  {
  }

  lemma RaisedBefore(c: Config, s: Sys, v: WorkerId, exc: Failure, j: JobId)
    requires j in s.rows && PcOf(s.pcs, v).Acking? && PcOf(s.pcs, v).succeeded && PcOf(s.pcs, v).m.job == Some(j)
    requires Recoverable(c, Step(c, s, AckRaises(v, exc)), j)
    ensures Recoverable(c, s, j)
  {
    hide Deliverable;
    var e := AckRaises(v, exc);
    var s' := Step(c, s, e);
    if w :| HandlingJob(PcOf(s'.pcs, w), j) {
      assert HandlingJob(PcOf(s.pcs, w), j);
    } else {
      if Terminal(s'.rows[j]) {
        var w :| Revives(s', w, j);
        assert Revives(s, w, j);
      } else {
        assert Revives(s, v, j);
      }
      if Deliverable(c, s', j) {
        DeliverableBefore(c, s, e, j);
      }
    }
  }

  lemma FinishedBefore(c: Config, s: Sys, e: Event, v: WorkerId, j: JobId)
    requires Enabled(c, s, e) && e.Finish? && ActsOn(s, e, v, j) && j in s.rows
    ensures Recoverable(c, s, j)
  {
    assert HandlingJob(PcOf(s.pcs, v), j);
  }

  lemma RecoverableBefore(c: Config, s: Sys, e: Event, j: JobId)
    requires Inv(s) && j in s.kinds && Enabled(c, s, e) && Reconciled(s, e) && Recoverable(c, Step(c, s, e), j)
    ensures Recoverable(c, s, j)
  {
    hide Recoverable, Step, QueueInv, RowsInv, WorkersInv, HandlesInv;
    WasKnown(c, s, e, j);
    if v :| ActsOn(s, e, v, j) {
      if e.Claim? {
        ClaimedBefore(c, s, v, j);
      } else if e.AckRaises? {
        RaisedBefore(c, s, v, e.exc, j);
      } else {
        FinishedBefore(c, s, e, v, j);
      }
    } else {
      UntouchedBefore(c, s, e, j);
    }
  }

  lemma WasKnown(c: Config, s: Sys, e: Event, j: JobId)
    requires Enabled(c, s, e) && j in s.kinds && Recoverable(c, Step(c, s, e), j)
    ensures j in s.rows
  {
    if j !in s.rows {
      Appears(c, s, e, j);
    }
  }

  lemma {:induction false} SuccessWasRecoverable(c: Config, s: Sys, es: seq<Event>, j: JobId)
    requires Inv(s) && j in s.kinds && SucceedsBy(c, s, es, j)
    ensures Recoverable(c, s, j)
    decreases |es|
  {
    hide Inv, Step, Enabled, Reconciled;
    if es != [] {
      StepKeepsInv(c, s, es[0]);
      StillKnown(c, s, es[0], j);
      SuccessWasRecoverable(c, Step(c, s, es[0]), es[1..], j);
      RecoverableBefore(c, s, es[0], j);
    }
  }

  // ---- a job that is recoverable succeeds in some continuation

  lemma SucceedsNext(c: Config, s: Sys, e: Event, j: JobId)
    requires Enabled(c, s, e) && Reconciled(s, e) && CanSucceed(c, Step(c, s, e), j)
    ensures CanSucceed(c, s, j)
  {
    hide Step, Enabled, Reconciled;
    var es :| SucceedsBy(c, Step(c, s, e), es, j);
    RunsCons(c, s, e, es);
    assert ([e] + es)[1..] == es;
    assert SucceedsBy(c, s, [e] + es, j);
  }

  lemma HolderSucceeds(c: Config, s: Sys, j: JobId, w: WorkerId)
    requires j in s.rows && HandlingJob(PcOf(s.pcs, w), j)
    ensures CanSucceed(c, s, j)
  {
    var s' := Step(c, s, Finish(w, Success));
    assert SucceedsBy(c, s', [], j);
    SucceedsNext(c, s, Finish(w, Success), j);
  }

  lemma HearerSucceeds(c: Config, s: Sys, j: JobId, w: WorkerId)
    requires AboutToClaim(PcOf(s.pcs, w), j) && HasHandler(PcOf(s.pcs, w).m.kind) && CanClaim(s.rows, j, s.clock)
    ensures CanSucceed(c, s, j)
  {
    HolderSucceeds(c, Step(c, s, Event.Claim(w)), j, w);
    SucceedsNext(c, s, Event.Claim(w), j);
  }

  lemma {:induction false} SomeoneElse(ws: set<WorkerId>) returns (w: WorkerId)
    ensures w !in ws && forall v :: v in ws ==> |v| < |w|
    decreases ws
  {
    if ws == {} {
      w := "";
    } else {
      var v :| v in ws;
      var u := SomeoneElse(ws - {v});
      w := u + v + "!";
      assert forall x :: x in ws ==> x in ws - {v} || x == v;
    }
  }

  /** A message waiting in the queue is received by a new worker, once the messages before it
      have been received by others or buried. */
  lemma {:induction false} WaitingSucceeds(c: Config, s: Sys, j: JobId, i: nat)
    requires AwaitsAt(c, s, j, InReady(i)) && HasHandler(s.q.ready[i].kind) && CanClaim(s.rows, j, s.clock)
    ensures CanSucceed(c, s, j)
    decreases |s.q.ready|
  {
    hide CanClaim;
    var w := SomeoneElse(s.pcs.Keys);
    if i == |s.q.ready| - 1 {
      HearerSucceeds(c, Step(c, s, Receive(w)), j, w);
      SucceedsNext(c, s, Receive(w), j);
    } else {
      var e := if OverLimit(s.q, c.maxReceiveCount) then Bury else Receive(w);
      assert Step(c, s, e).q.ready == ButLast(s.q.ready);
      WaitingSucceeds(c, Step(c, s, e), j, i);
      SucceedsNext(c, s, e, j);
    }
  }

  lemma LeasedSucceeds(c: Config, s: Sys, j: JobId, m: Message)
    requires AwaitsAt(c, s, j, InFlight(m)) && HasHandler(m.kind) && CanClaim(s.rows, j, s.clock)
    requires s.q.inflight[m] >= 0
    ensures CanSucceed(c, s, j)
  {
    var s1 := Step(c, s, Tick(Wait(s, m)));
    var s2 := Step(c, s1, Requeue(m));
    WaitingSucceeds(c, s2, j, |s.q.ready|);
    SucceedsNext(c, s1, Requeue(m), j);
    SucceedsNext(c, s, Tick(Wait(s, m)), j);
  }

  ghost predicate DeadlinesRight(c: Config, s: Sys) {
    c.visibilityTimeout >= 0 && s.clock >= 0 && forall m :: m in s.q.inflight ==> s.q.inflight[m] >= 0
  }

  lemma StepKeepsDeadlines(c: Config, s: Sys, e: Event)
    requires DeadlinesRight(c, s) && Enabled(c, s, e)
    ensures DeadlinesRight(c, Step(c, s, e))
  {
  }

  lemma DeliveredSucceeds(c: Config, s: Sys, j: JobId)
    requires Inv(s) && DeadlinesRight(c, s) && j in s.rows && Deliverable(c, s, j)
    requires HasHandler(s.rows[j].kind) && CanClaim(s.rows, j, s.clock)
    ensures CanSucceed(c, s, j)
  {
    assert RowOk(s, j);
    if p :| AwaitsAt(c, s, j, p) {
      assert MessageOk(s, At(s.q, p));
      if p.InReady? {
        WaitingSucceeds(c, s, j, p.i);
      } else {
        LeasedSucceeds(c, s, j, p.m);
      }
    } else {
      var w :| AboutToClaim(PcOf(s.pcs, w), j);
      assert WorkerOk(s, PcOf(s.pcs, w));
      HearerSucceeds(c, s, j, w);
    }
  }

  /** A claimable job that is not deliverable is queued, and sent once it is stale. */
  lemma SentSucceeds(c: Config, s: Sys, j: JobId)
    requires Inv(s) && j in s.rows && s.rows[j].status == Queued && c.maxReceiveCount > 0
    requires HasHandler(s.rows[j].kind) && CanClaim(s.rows, j, s.clock)
    ensures CanSucceed(c, s, j)
  {
    assert RowOk(s, j);
    var wait := Max(0, s.rows[j].createdAt + STALE_AFTER + 1 - s.clock);
    var s1 := Step(c, s, Tick(wait));
    var s2 := Step(c, s1, Enqueue(j, ""));
    WaitingSucceeds(c, s2, j, 0);
    SucceedsNext(c, s1, Enqueue(j, ""), j);
    SucceedsNext(c, s, Tick(wait), j);
  }

  lemma ClaimableSucceeds(c: Config, s: Sys, j: JobId)
    requires Inv(s) && DeadlinesRight(c, s) && CanClaim(s.rows, j, s.clock)
    requires HasHandler(s.rows[j].kind) && Coming(c, s, j)
    ensures CanSucceed(c, s, j)
  {
    if Deliverable(c, s, j) {
      DeliveredSucceeds(c, s, j);
    } else {
      SentSucceeds(c, s, j);
    }
  }

  lemma SameMessages(c: Config, s: Sys, s': Sys, j: JobId)
    requires s'.q == s.q && forall w :: PcOf(s.pcs, w).Polled? ==> PcOf(s'.pcs, w) == PcOf(s.pcs, w)
    requires Deliverable(c, s, j)
    ensures Deliverable(c, s', j)
  {
    if p :| AwaitsAt(c, s, j, p) {
      assert AwaitsAt(c, s', j, p);
    } else {
      var w :| AboutToClaim(PcOf(s.pcs, w), j);
      assert AboutToClaim(PcOf(s'.pcs, w), j);
    }
  }

  lemma UnfinishedSucceeds(c: Config, s: Sys, j: JobId)
    requires Inv(s) && DeadlinesRight(c, s) && j in s.rows && !Terminal(s.rows[j])
    requires HasHandler(s.rows[j].kind) && s.rows[j].attempt < s.rows[j].maxAttempts && Coming(c, s, j)
    ensures CanSucceed(c, s, j)
  {
    hide Deliverable, HandlesInv;
    assert RowOk(s, j);
    var job := s.rows[j];
    var e := Tick(if job.status == Running then Max(0, job.leaseExpiresAt.value + 1 - s.clock) else 0);
    var s' := Step(c, s, e);
    StepKeepsInv(c, s, e);
    if Deliverable(c, s, j) {
      SameMessages(c, s, s', j);
    }
    ClaimableSucceeds(c, s', j);
    SucceedsNext(c, s, e, j);
  }

  lemma RevivedSucceeds(c: Config, s: Sys, j: JobId, w: WorkerId)
    requires Inv(s) && DeadlinesRight(c, s) && j in s.rows && Revives(s, w, j)
    requires HasHandler(s.rows[j].kind) && Deliverable(c, s, j)
    ensures CanSucceed(c, s, j)
  {
    hide Deliverable, QueueInv, RowsInv, WorkersInv, HandlesInv;
    var e := AckRaises(w, Failure("", None, ""));
    var s' := Step(c, s, e);
    StepKeepsInv(c, s, e);
    SameMessages(c, s, s', j);
    UnfinishedSucceeds(c, s', j);
    SucceedsNext(c, s, e, j);
  }

  lemma RecoverableSucceeds(c: Config, s: Sys, j: JobId)
    requires Inv(s) && DeadlinesRight(c, s) && Recoverable(c, s, j)
    ensures CanSucceed(c, s, j)
  {
    hide Inv, DeadlinesRight, Deliverable;
    if s.rows[j].status == Succeeded {
      assert SucceedsBy(c, s, [], j);
    } else if w :| HandlingJob(PcOf(s.pcs, w), j) {
      HolderSucceeds(c, s, j, w);
    } else if Terminal(s.rows[j]) {
      var w :| Revives(s, w, j);
      RevivedSucceeds(c, s, j, w);
    } else {
      UnfinishedSucceeds(c, s, j);
    }
  }

  lemma {:induction false} RunKeepsDeadlines(c: Config, s: Sys, es: seq<Event>)
    requires DeadlinesRight(c, s) && Runs(c, s, es)
    ensures DeadlinesRight(c, After(c, s, es))
    decreases |es|
  {
    hide DeadlinesRight, Step, Enabled;
    if es != [] {
      StepKeepsDeadlines(c, s, es[0]);
      RunKeepsDeadlines(c, Step(c, s, es[0]), es[1..]);
    }
  }

  // ---- the results

  /** After any run, a job that was ever submitted can still succeed if and only if it is
      recoverable. */
  lemma SucceedsIffRecoverable(c: Config, clock: nat, es: seq<Event>, j: JobId)
    requires Runs(c, Start(clock), es) && j in After(c, Start(clock), es).kinds && c.visibilityTimeout >= 0
    ensures var s := After(c, Start(clock), es); CanSucceed(c, s, j) <==> Recoverable(c, s, j)
  {
    hide Inv, Recoverable, SucceedsBy;
    var s := After(c, Start(clock), es);
    assert Inv(Start(clock)) && DeadlinesRight(c, Start(clock)) by { StartIsRight(c, clock); }
    RunKeepsInv(c, Start(clock), es);
    RunKeepsDeadlines(c, Start(clock), es);
    if fs :| SucceedsBy(c, s, fs, j) {
      SuccessWasRecoverable(c, s, fs, j);
    }
    if Recoverable(c, s, j) {
      RecoverableSucceeds(c, s, j);
    }
  }

  lemma StartIsRight(c: Config, clock: nat)
    requires c.visibilityTimeout >= 0
    ensures Inv(Start(clock)) && DeadlinesRight(c, Start(clock))
  {
  }

  /** A way forward is one: a job that has it and is not dead can still succeed, queued ones
      if they may be tried at all. */
  lemma WayForwardLeadsOn(c: Config, clock: nat, es: seq<Event>, j: JobId)
    requires Runs(c, Start(clock), es) && c.visibilityTimeout >= 0
    requires var s := After(c, Start(clock), es);
             j in s.rows && HasWayForward(c, s, j) && s.rows[j].status != Dead
    requires var s := After(c, Start(clock), es);
             s.rows[j].status == Queued ==> HasHandler(s.rows[j].kind) && s.rows[j].maxAttempts > 0 && c.maxReceiveCount > 0
    ensures CanSucceed(c, After(c, Start(clock), es), j)
  {
    hide CanSucceed;
    var s := After(c, Start(clock), es);
    RunKeepsInv(c, Start(clock), es);
    assert RowOk(s, j);
    if s.rows[j].status == Failed {
      OwedIsDeliverable(c, s, j);
    }
    SucceedsIffRecoverable(c, clock, es, j);
  }

  lemma OwedIsDeliverable(c: Config, s: Sys, j: JobId)
    requires Owed(c, s, j)
    ensures Deliverable(c, s, j)
  {
    if p :| OwedAt(c, s, j, p) {
      assert AwaitsAt(c, s, j, p);
    }
  }

  /** A stranded job is lost: unless someone sends it by hand it never succeeds. */
  lemma StrandedIsLost(c: Config, clock: nat, es: seq<Event>, j: JobId)
    requires Runs(c, Start(clock), es) && c.visibilityTimeout >= 0 && Stranded(c, After(c, Start(clock), es), j)
    ensures !CanSucceed(c, After(c, Start(clock), es), j)
  {
    hide CanSucceed;
    var s := After(c, Start(clock), es);
    RunKeepsInv(c, Start(clock), es);
    assert RowOk(s, j);
    forall p ensures !AwaitsAt(c, s, j, p) {
    }
    SucceedsIffRecoverable(c, clock, es, j);
  }
}
