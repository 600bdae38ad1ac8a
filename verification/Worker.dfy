/**
 The worker's own code (apps/worker/main.py), over a job table and a queue updated in
 place. Each method is proved to do to them exactly what a run of the protocol does,
 so what holds of every run holds of workers made of these methods.

 The handler is its outcome, and `ackRaises` what the ack after a success raises, if it
 does; the clock is read once at the claim and once at the end.
 The heartbeat thread is not started here: its steps are events of the protocol.
 */
module Worker {
  import opened Wrappers
  import opened Jobs
  import opened Queue
  import opened Protocol

  /** The state of the protocol that a table and a queue are in. */
  ghost predicate Pictures(s: Sys, db: JobTable, queue: RQQueue)
    reads db, queue
  {
    s.rows == db.rows && s.q == queue.Contents() && s.sent == queue.issued
  }

  ghost predicate Configures(c: Config, queue: RQQueue) {
    c.visibilityTimeout == queue.visibilityTimeout && c.maxReceiveCount == queue.maxReceiveCount
  }

  // ---- processing

  predicate Accepted(rows: Rows, m: Message, now: int) {
    HasHandler(m.kind) && (m.job.Some? ==> CanClaim(rows, m.job.value, now))
  }

  function Ending(w: WorkerId, outcome: Outcome, ackRaises: Option<Failure>): seq<Event> {
    if outcome.Transient? then [Finish(w, outcome)]
    else if outcome.Success? && ackRaises.Some? then [Finish(w, outcome), AckRaises(w, ackRaises.value)]
    else [Finish(w, outcome), Ack(w)]
  }

  /** process(), as events. */
  function Processing(rows: Rows, w: WorkerId, m: Message, outcome: Outcome, ackRaises: Option<Failure>, now: int, elapsed: nat)
    : seq<Event>
  {
    if Accepted(rows, m, now) then [Event.Claim(w), Tick(elapsed)] + Ending(w, outcome, ackRaises)
    else [Event.Claim(w), Ack(w)]
  }

  function EndedRows(rows: Rows, m: Message, outcome: Outcome, ackRaises: Option<Failure>, now: int): Rows {
    if m.job.None? then rows
    else match outcome
         case Success =>
           var marked := MarkSucceeded(rows, m.job.value, now);
           if ackRaises.Some? then MarkFailed(marked, m.job.value, ackRaises.value, m.count, now) else marked
         case Permanent(exc) => MarkDead(rows, m.job.value, exc, now)
         case Transient(exc) => MarkFailed(rows, m.job.value, exc, m.count, now)
  }

  predicate AcksAtTheEnd(outcome: Outcome, ackRaises: Option<Failure>) {
    outcome.Permanent? || (outcome.Success? && ackRaises.None?)
  }

  lemma RefusedRuns(c: Config, s: Sys, w: WorkerId, m: Message)
    requires PcOf(s.pcs, w) == Polled(m) && !Accepted(s.rows, m, s.clock)
    ensures var es := [Event.Claim(w), Ack(w)];
            && Runs(c, s, es)
            && After(c, s, es) == s.(
                 q := Acked(s.q, m), pcs := After(c, s, es).pcs,
                 rows := if m.job.Some? && !HasHandler(m.kind)
                         then MarkDead(s.rows, m.job.value, UnknownKind(m.kind), s.clock) else s.rows)
            && PcOf(After(c, s, es).pcs, w) == Idle
  {
    RunsTwo(c, s, Event.Claim(w), Ack(w));
  }

  lemma EndingRuns(c: Config, s: Sys, w: WorkerId, m: Message, outcome: Outcome, ackRaises: Option<Failure>)
    requires PcOf(s.pcs, w) == Handling(m)
    ensures var es := Ending(w, outcome, ackRaises);
            && Runs(c, s, es)
            && After(c, s, es) == s.(
                 rows := EndedRows(s.rows, m, outcome, ackRaises, s.clock), pcs := After(c, s, es).pcs,
                 q := if AcksAtTheEnd(outcome, ackRaises) then Acked(s.q, m) else s.q)
            && PcOf(After(c, s, es).pcs, w) == Idle
  {
    if outcome.Transient? {
      RunsOne(c, s, Finish(w, outcome));
    } else if outcome.Success? && ackRaises.Some? {
      RunsTwo(c, s, Finish(w, outcome), AckRaises(w, ackRaises.value));
    } else {
      RunsTwo(c, s, Finish(w, outcome), Ack(w));
    }
  }

  lemma AcceptedRuns(c: Config, s: Sys, w: WorkerId, m: Message, outcome: Outcome, ackRaises: Option<Failure>, elapsed: nat)
    requires PcOf(s.pcs, w) == Polled(m) && Accepted(s.rows, m, s.clock)
    ensures var es := Processing(s.rows, w, m, outcome, ackRaises, s.clock, elapsed);
            var claimed := if m.job.Some? then Jobs.Claim(s.rows, m.job.value, w, LEASE_SECONDS, s.clock) else s.rows;
            && Runs(c, s, es)
            && After(c, s, es).rows == EndedRows(claimed, m, outcome, ackRaises, s.clock + elapsed)
            && After(c, s, es).q == (if AcksAtTheEnd(outcome, ackRaises) then Acked(s.q, m) else s.q)
            && After(c, s, es).sent == s.sent
            && PcOf(After(c, s, es).pcs, w) == Idle
  {
    hide Runs;
    RunsTwo(c, s, Event.Claim(w), Tick(elapsed));
    EndingRuns(c, After(c, s, [Event.Claim(w), Tick(elapsed)]), w, m, outcome, ackRaises);
    RunsAppend(c, s, [Event.Claim(w), Tick(elapsed)], Ending(w, outcome, ackRaises));
  }

  method Process(db: JobTable, queue: RQQueue, worker: WorkerId, m: Message, outcome: Outcome,
                 ackRaises: Option<Failure>, now: int, finishedAt: int, ghost c: Config, ghost s: Sys)
    requires now <= finishedAt
    requires Pictures(s, db, queue) && s.clock == now && PcOf(s.pcs, worker) == Polled(m)
    modifies db, queue`inflight
    ensures var es := Processing(s.rows, worker, m, outcome, ackRaises, now, finishedAt - now);
            && Runs(c, s, es)
            && Pictures(After(c, s, es), db, queue) && PcOf(After(c, s, es).pcs, worker) == Idle
  {
    if !HasHandler(m.kind) {
      if m.job.Some? {
        db.Kill(m.job.value, UnknownKind(m.kind), now);
      }
      queue.Ack(m);
      RefusedRuns(c, s, worker, m);
      return;
    }
    if m.job.Some? {
      var claimed := db.ClaimJob(m.job.value, worker, LEASE_SECONDS, now);
      if claimed.None? {
        queue.Ack(m);
        RefusedRuns(c, s, worker, m);
        return;
      }
    }
    match outcome {
      case Success =>
        if m.job.Some? {
          db.Succeed(m.job.value, finishedAt);
        }
        if ackRaises.None? {
          queue.Ack(m);
        } else if m.job.Some? {
          db.Fail(m.job.value, ackRaises.value, m.count, finishedAt);
        }
      case Permanent(exc) =>
        if m.job.Some? {
          db.Kill(m.job.value, exc, finishedAt);
        }
        queue.Ack(m);
      case Transient(exc) =>
        if m.job.Some? {
          db.Fail(m.job.value, exc, m.count, finishedAt);
        }
    }
    AcceptedRuns(c, s, worker, m, outcome, ackRaises, finishedAt - now);
  }

  // ---- receiving

  function Requeues(batch: seq<Message>): seq<Event> {
    seq(|batch|, i requires 0 <= i < |batch| => Requeue(batch[i]))
  }

  lemma {:induction false} RequeuesRun(c: Config, s: Sys, batch: seq<Message>)
    requires forall i :: 0 <= i < |batch| ==> Expired(s.q, batch[i], s.clock)
    requires forall i, j :: 0 <= i < j < |batch| ==> batch[i] != batch[j]
    ensures Runs(c, s, Requeues(batch)) && After(c, s, Requeues(batch)) == s.(q := AllRequeued(s.q, batch))
    decreases |batch|
  {
    if batch == [] {
      assert Requeues(batch) == [];
    } else {
      var front := ButLast(batch);
      var last := Requeue(Last(batch));
      RequeuesRun(c, s, front);
      AllRequeuedAt(s.q, front);
      RunsOne(c, After(c, s, Requeues(front)), last);
      RunsAppend(c, s, Requeues(front), [last]);
      assert Requeues(batch) == Requeues(front) + [last];
    }
  }

  /** Bury what was delivered too often, then receive, if anything is left. */
  lemma {:induction false} DeliveryRuns(c: Config, s: Sys, w: WorkerId) returns (es: seq<Event>)
    requires PcOf(s.pcs, w).Idle?
    ensures Runs(c, s, es)
    ensures var (q, out) := Delivered(s.q, 1, c.maxReceiveCount, s.clock + c.visibilityTimeout);
            var s' := After(c, s, es);
            && |out| <= 1
            && s' == s.(q := q, pcs := if out == [] then s.pcs else s.pcs[w := Polled(out[0])])
    decreases |s.q.ready|
  {
    if s.q.ready == [] {
      es := [];
    } else if OverLimit(s.q, c.maxReceiveCount) {
      var rest := DeliveryRuns(c, Step(c, s, Bury), w);
      RunsCons(c, s, Bury, rest);
      es := [Bury] + rest;
    } else {
      RunsOne(c, s, Receive(w));
      es := [Receive(w)];
    }
  }

  lemma ReceiveRuns(c: Config, s: Sys, w: WorkerId, batch: seq<Message>) returns (es: seq<Event>)
    requires PcOf(s.pcs, w).Idle? && ExpiredBatch(s.q, s.clock, batch)
    ensures Runs(c, s, es)
    ensures var (q, out) := Delivered(AllRequeued(s.q, batch), 1, c.maxReceiveCount, s.clock + c.visibilityTimeout);
            && |out| <= 1
            && After(c, s, es) == s.(q := q, pcs := if out == [] then s.pcs else s.pcs[w := Polled(out[0])])
  {
    RequeuesRun(c, s, batch);
    var delivery := DeliveryRuns(c, s.(q := AllRequeued(s.q, batch)), w);
    RunsAppend(c, s, Requeues(batch), delivery);
    es := Requeues(batch) + delivery;
  }

  /** One turn of the main loop: poll, then process, or hand the message straight back
      when the worker has been told to stop. */
  method Turn(db: JobTable, queue: RQQueue, worker: WorkerId, stopping: bool, outcome: Outcome,
              ackRaises: Option<Failure>, now: int, finishedAt: int, ghost c: Config, ghost s: Sys) returns (ghost es: seq<Event>)
    requires now <= finishedAt && Configures(c, queue)
    requires Pictures(s, db, queue) && s.clock == now && PcOf(s.pcs, worker) == Idle
    modifies db, queue`ready, queue`inflight, queue`dead
    ensures Runs(c, s, es) && Pictures(After(c, s, es), db, queue)
    ensures PcOf(After(c, s, es).pcs, worker) == Idle || (stopping && PcOf(After(c, s, es).pcs, worker) == Gone)
  {
    var messages, batch := queue.Receive(1, now);
    es := ReceiveRuns(c, s, worker, batch);
    ghost var s1 := After(c, s, es);
    if messages != [] {
      var m := messages[0];
      if stopping {
        queue.ExtendLease(m, 0, now);
        RunsOne(c, s1, Drain(worker));
        RunsAppend(c, s, es, [Drain(worker)]);
        es := es + [Drain(worker)];
      } else {
        Process(db, queue, worker, m, outcome, ackRaises, now, finishedAt, c, s1);
        ghost var processing := Processing(s1.rows, worker, m, outcome, ackRaises, now, finishedAt - now);
        RunsAppend(c, s, es, processing);
        es := es + processing;
      }
    }
  }

  // ---- reconciling

  function Resends(rows: Rows, page: seq<JobId>): seq<Event>
    requires forall i :: 0 <= i < |page| ==> page[i] in rows
  {
    seq(|page|, i requires 0 <= i < |page| => Enqueue(page[i], rows[page[i]].payload))
  }

  lemma RowsAreKnown(s: Sys)
    requires RowsInv(s)
    ensures forall j :: j in s.rows ==> j in s.kinds && s.rows[j].kind == s.kinds[j] && (s.rows[j].status == Queued ==> s.rows[j].attempt == 0)
  {
    assert forall j :: j in s.rows ==> RowOk(s, j);
  }

  /** Re-enqueue a page of the oldest jobs whose message never arrived, each once. */
  method Reconcile(db: JobTable, queue: RQQueue, now: int, ghost c: Config, ghost s: Sys)
    returns (n: nat, ghost page: seq<JobId>)
    requires Pictures(s, db, queue) && RowsInv(s)
    modifies queue
    ensures StalePage(db.rows, now - STALE_AFTER, page) && n == |page|
    ensures forall j :: j in page ==> j in db.rows && db.rows[j].status == Queued && db.rows[j].createdAt < now - 120
    ensures n < 100 ==> forall j :: j in db.rows && db.rows[j].status == Queued && db.rows[j].createdAt < now - 120 ==> j in page
    ensures Runs(c, s, Resends(db.rows, page)) && Pictures(After(c, s, Resends(db.rows, page)), db, queue)
  {
    hide RowsInv, RowShape;
    var stale := db.StaleQueuedJobs(STALE_AFTER, now);
    RowsAreKnown(s);
    page := stale;
    var i := 0;
    ghost var cur := s;
    assert Resends(db.rows, page[..0]) == [];
    while i < |stale|
      invariant i <= |stale|
      invariant Runs(c, s, Resends(db.rows, page[..i])) && cur == After(c, s, Resends(db.rows, page[..i]))
      invariant Pictures(cur, db, queue) && cur.kinds == s.kinds
    {
      var job := db.rows[stale[i]];
      var _ := queue.Enqueue(job.kind, Some(stale[i]), job.payload, 0, now);
      ghost var e := Enqueue(stale[i], job.payload);
      RunsOne(c, cur, e);
      RunsAppend(c, s, Resends(db.rows, page[..i]), [e]);
      assert Resends(db.rows, page[..i + 1]) == Resends(db.rows, page[..i]) + [e];
      cur := Step(c, cur, e);
      i := i + 1;
    }
    assert page[..i] == page;
    n := |stale|;
  }
}
