/**
 Workers, job rows and queue messages together (apps/worker/main.py over
 edlo/jobs/__init__.py and edlo/queue/rq_queue.py).

 A system state holds the rows, the queue, what every worker is doing, and a clock.
 One event is one commit, one queue move or one clock tick; any number of workers
 interleave, die and drain, heartbeats fire at any time (late ones included), and a
 job's message may be enqueued any number of times, which covers the API's single
 enqueue and the reconciler's duplicates alike.
 */
module Protocol {
  import opened Wrappers
  import opened Jobs
  import opened Queue

  datatype Config = Config(visibilityTimeout: int, maxReceiveCount: int)

  datatype Pc =
    | Idle
    | Polled(m: Message)                     // received, not yet claimed
    | Handling(m: Message)                   // between the claim and the mark
    | Acking(m: Message, succeeded: bool)    // marked or refused, the ack still to come
    | Gone                                   // dead or stopped

  datatype Outcome = Success | Permanent(exc: Failure) | Transient(exc: Failure)

  /** `kinds` remembers every job ever submitted, `claims` counts successful claims. */
  datatype Sys = Sys(
    rows: Rows, q: State, pcs: map<WorkerId, Pc>, clock: int,
    sent: nat, kinds: map<JobId, string>, claims: multiset<JobId>)

  datatype Event =
    | Submit(j: JobId, kind: string, payload: string, maxAttempts: int)
    | Enqueue(j: JobId, payload: string)
    | EnqueueBare(kind: string, payload: string)
    | Requeue(m: Message)
    | Bury
    | Receive(w: WorkerId)
    | Claim(w: WorkerId)
    | Finish(w: WorkerId, outcome: Outcome)
    | Ack(w: WorkerId)
    | AckRaises(w: WorkerId, exc: Failure)
    | HeartbeatMessage(h: Message)
    | HeartbeatRow(w: WorkerId, j: JobId)
    | Crash(w: WorkerId)
    | Drain(w: WorkerId)
    | Tick(elapsed: nat)
    | Delete(j: JobId)

  function Start(clock: int): Sys { Sys(map[], EMPTY, map[], clock, 0, map[], multiset{}) }

  function PcOf(pcs: map<WorkerId, Pc>, w: WorkerId): Pc { if w in pcs then pcs[w] else Idle }

  predicate HasMessage(pc: Pc) { pc.Polled? || pc.Handling? || pc.Acking? }

  /** HANDLERS */
  predicate HasHandler(kind: string) { kind == "transcribe" || kind == "plan" || kind == "pack" }

  function UnknownKind(kind: string): Failure {
    Failure("PermanentFailure", None, "unknown job kind '" + kind + "'")
  }

  predicate Enabled(c: Config, s: Sys, e: Event) {
    match e
    case Submit(j, _, _, _) => j !in s.kinds
    case Enqueue(j, _) => j in s.kinds
    case Requeue(m) => Expired(s.q, m, s.clock)
    case Bury => s.q.ready != [] && OverLimit(s.q, c.maxReceiveCount)
    case Receive(w) => PcOf(s.pcs, w).Idle? && s.q.ready != [] && !OverLimit(s.q, c.maxReceiveCount)
    case Claim(w) => PcOf(s.pcs, w).Polled?
    case Finish(w, _) => PcOf(s.pcs, w).Handling?
    case Ack(w) => PcOf(s.pcs, w).Acking?
    case AckRaises(w, _) => PcOf(s.pcs, w).Acking? && PcOf(s.pcs, w).succeeded
    case Drain(w) => PcOf(s.pcs, w).Polled?
    case _ => true
  }

  // ---- process(), step by step

  function AfterClaim(s: Sys, w: WorkerId, m: Message): Sys {
    if !HasHandler(m.kind) then
      s.(rows := if m.job.Some? then MarkDead(s.rows, m.job.value, UnknownKind(m.kind), s.clock) else s.rows,
         pcs := s.pcs[w := Acking(m, false)])
    else if m.job.None? then
      s.(pcs := s.pcs[w := Handling(m)])
    else if CanClaim(s.rows, m.job.value, s.clock) then
      s.(rows := Jobs.Claim(s.rows, m.job.value, w, LEASE_SECONDS, s.clock),
         pcs := s.pcs[w := Handling(m)],
         claims := s.claims + multiset{m.job.value})
    else
      s.(pcs := s.pcs[w := Acking(m, false)])
  }

  function AfterFinish(s: Sys, w: WorkerId, m: Message, outcome: Outcome): Sys {
    match outcome
    case Success =>
      s.(rows := if m.job.Some? then MarkSucceeded(s.rows, m.job.value, s.clock) else s.rows,
         pcs := s.pcs[w := Acking(m, true)])
    case Permanent(exc) =>
      s.(rows := if m.job.Some? then MarkDead(s.rows, m.job.value, exc, s.clock) else s.rows,
         pcs := s.pcs[w := Acking(m, false)])
    case Transient(exc) =>
      s.(rows := if m.job.Some? then MarkFailed(s.rows, m.job.value, exc, m.count, s.clock) else s.rows,
         pcs := s.pcs[w := Idle])
  }

  function Step(c: Config, s: Sys, e: Event): Sys
    requires Enabled(c, s, e)
  {
    match e
    case Submit(j, kind, payload, maxAttempts) =>
      s.(rows := s.rows[j := NewJob(kind, payload, maxAttempts, s.clock)], kinds := s.kinds[j := kind])
    case Enqueue(j, payload) =>
      s.(q := Sent(s.q, Message(s.sent, s.kinds[j], Some(j), payload, 0)), sent := s.sent + 1)
    case EnqueueBare(kind, payload) =>
      s.(q := Sent(s.q, Message(s.sent, kind, None, payload, 0)), sent := s.sent + 1)
    case Requeue(m) => s.(q := Requeued(s.q, m))
    case Bury => s.(q := Taken(s.q, c.maxReceiveCount, s.clock + c.visibilityTimeout))
    case Receive(w) =>
      s.(q := Taken(s.q, c.maxReceiveCount, s.clock + c.visibilityTimeout),
         pcs := s.pcs[w := Polled(Redelivery(Last(s.q.ready)))])
    case Claim(w) => AfterClaim(s, w, PcOf(s.pcs, w).m)
    case Finish(w, outcome) => AfterFinish(s, w, PcOf(s.pcs, w).m, outcome)
    case Ack(w) => s.(q := Acked(s.q, PcOf(s.pcs, w).m), pcs := s.pcs[w := Idle])
    case AckRaises(w, exc) =>
      var m := PcOf(s.pcs, w).m;
      s.(rows := if m.job.Some? then MarkFailed(s.rows, m.job.value, exc, m.count, s.clock) else s.rows,
         pcs := s.pcs[w := Idle])
    case HeartbeatMessage(h) => s.(q := Extended(s.q, h, s.clock + LEASE_SECONDS))
    case HeartbeatRow(w, j) => s.(rows := ExtendLease(s.rows, j, w, LEASE_SECONDS, s.clock))
    case Crash(w) => s.(pcs := s.pcs[w := Gone])
    case Drain(w) => s.(q := Extended(s.q, PcOf(s.pcs, w).m, s.clock), pcs := s.pcs[w := Gone])
    case Tick(elapsed) => s.(clock := s.clock + elapsed)
    case Delete(j) => s.(rows := s.rows - {j})
  }

  predicate Runs(c: Config, s: Sys, es: seq<Event>)
    decreases |es|
  {
    es == [] || (Enabled(c, s, es[0]) && Runs(c, Step(c, s, es[0]), es[1..]))
  }

  function After(c: Config, s: Sys, es: seq<Event>): Sys
    requires Runs(c, s, es)
    decreases |es|
  {
    if es == [] then s else After(c, Step(c, s, es[0]), es[1..])
  }

  // ---- what every reachable state keeps, whatever fails

  /** The shape of a row. */
  predicate RowShape(job: Job) {
    && (job.status == Running <==> job.leaseOwner.Some?)
    && (job.leaseOwner.Some? <==> job.leaseExpiresAt.Some?)
    && (job.attempt > 0 <==> job.startedAt.Some?)
    && (job.status == Queued ==> job.attempt == 0)
    && (job.status == Failed ==> job.attempt < job.maxAttempts)
    && (job.attempt == 0 ==> job.status == Queued || job.status == Dead)
    && (Terminal(job) ==> job.finishedAt.Some?)
  }

  predicate RowOk(s: Sys, j: JobId)
    requires j in s.rows
  {
    var job := s.rows[j];
    && j in s.kinds && job.kind == s.kinds[j]
    && RowShape(job)
    && job.attempt == s.claims[j]
    && (job.attempt > 0 ==> job.attempt <= job.maxAttempts)
    && (!HasHandler(job.kind) ==> job.status == Queued || job.status == Dead)
  }

  predicate MessageOk(s: Sys, m: Message) {
    && m.id < s.sent
    && (m.job.Some? ==> m.job.value in s.kinds && m.kind == s.kinds[m.job.value])
  }

  predicate WorkerOk(s: Sys, pc: Pc) {
    HasMessage(pc) ==>
      && MessageOk(s, pc.m)
      && (pc.Handling? || (pc.Acking? && pc.succeeded) ==>
            HasHandler(pc.m.kind) && (pc.m.job.Some? ==> s.claims[pc.m.job.value] > 0))
  }

  ghost predicate QueueInv(s: Sys) {
    && Apart(s.q)
    && (forall p :: Occupied(s.q, p) ==> MessageOk(s, At(s.q, p)))
  }

  ghost predicate RowsInv(s: Sys) {
    && (forall j :: j in s.rows ==> RowOk(s, j))
    && (forall j :: j in s.claims ==> j in s.kinds)
  }

  ghost predicate WorkersInv(s: Sys) {
    forall w :: WorkerOk(s, PcOf(s.pcs, w))
  }

  /** A worker's handle is never newer than the message, and no two workers share one. */
  ghost predicate HandlesInv(s: Sys) {
    && (forall w :: HasMessage(PcOf(s.pcs, w)) ==> NotNewer(s, PcOf(s.pcs, w).m))
    && (forall w, w' :: HasMessage(PcOf(s.pcs, w)) && HasMessage(PcOf(s.pcs, w')) && w != w' ==>
          PcOf(s.pcs, w).m != PcOf(s.pcs, w').m)
  }

  ghost predicate Inv(s: Sys) {
    QueueInv(s) && RowsInv(s) && WorkersInv(s) && HandlesInv(s)
  }

  lemma StepKeepsQueue(c: Config, s: Sys, e: Event)
    requires QueueInv(s) && Enabled(c, s, e)
    ensures QueueInv(Step(c, s, e))
  {
    var s' := Step(c, s, e);
    match e
    case Enqueue(j, payload) => SendKeepsQueue(s, s', Message(s.sent, s.kinds[j], Some(j), payload, 0));
    case EnqueueBare(kind, payload) => SendKeepsQueue(s, s', Message(s.sent, kind, None, payload, 0));
    case Requeue(m) => RequeuedApart(s.q, m);
      forall p | Occupied(s'.q, p) ensures MessageOk(s', At(s'.q, p)) {
        assert MessageOk(s, At(s.q, BeforeRequeued(s.q, m, p)));
      }
    case Bury => TakeKeepsQueue(c, s, s');
    case Receive(_) => TakeKeepsQueue(c, s, s');
    case Ack(w) => AckedApart(s.q, PcOf(s.pcs, w).m);
    case HeartbeatMessage(h) => ExtendedApart(s.q, h, s.clock + LEASE_SECONDS);
    case Drain(w) => ExtendedApart(s.q, PcOf(s.pcs, w).m, s.clock);
    case _ => SameQueue(s, s');
  }

  lemma SameQueue(s: Sys, s': Sys)
    requires QueueInv(s) && s'.q == s.q && s'.sent == s.sent
    requires forall j :: j in s.kinds ==> j in s'.kinds && s'.kinds[j] == s.kinds[j]
    ensures QueueInv(s')
  {
    forall p | Occupied(s'.q, p) ensures MessageOk(s', At(s'.q, p)) {
      assert MessageOk(s, At(s.q, p));
    }
  }

  lemma SendKeepsQueue(s: Sys, s': Sys, m: Message)
    requires QueueInv(s) && s'.q == Sent(s.q, m) && s'.sent == s.sent + 1 && s'.kinds == s.kinds
    requires m.id == s.sent && MessageOk(s', m)
    ensures QueueInv(s')
  {
    forall p | Occupied(s.q, p) ensures At(s.q, p).id != m.id {
      assert MessageOk(s, At(s.q, p));
    }
    SentApart(s.q, m);
    forall p | Occupied(s'.q, p) ensures MessageOk(s', At(s'.q, p)) {
      assert p == InReady(0) || MessageOk(s, At(s.q, BeforeSent(p)));
    }
  }

  lemma TakeKeepsQueue(c: Config, s: Sys, s': Sys)
    requires QueueInv(s) && |s.q.ready| > 0 && s'.sent == s.sent && s'.kinds == s.kinds
    requires s'.q == Taken(s.q, c.maxReceiveCount, s.clock + c.visibilityTimeout)
    ensures QueueInv(s')
  {
    TakenApart(s.q, c.maxReceiveCount, s.clock + c.visibilityTimeout);
    forall p | Occupied(s'.q, p) ensures MessageOk(s', At(s'.q, p)) {
      assert MessageOk(s, At(s.q, BeforeTaken(s.q, c.maxReceiveCount, p)));
    }
  }

  /** Histories only grow. */
  ghost predicate Grown(s: Sys, s': Sys) {
    && s.sent <= s'.sent
    && (forall j :: j in s.kinds ==> j in s'.kinds && s'.kinds[j] == s.kinds[j])
    && (forall j :: s.claims[j] <= s'.claims[j])
  }

  /** Only row j is touched, if any. */
  lemma OneRow(s: Sys, s': Sys, j: JobId)
    requires RowsInv(s) && Grown(s, s')
    requires forall i :: i != j && i in s'.rows ==> i in s.rows && s'.rows[i] == s.rows[i] && s'.claims[i] == s.claims[i]
    requires j in s'.rows ==> RowOk(s', j)
    requires forall i :: i in s'.claims ==> i in s.claims || i == j
    requires j in s'.claims ==> j in s'.kinds
    ensures RowsInv(s')
  {
    forall i | i in s'.rows ensures RowOk(s', i) {
      if i != j {
        assert RowOk(s, i);
      }
    }
  }

  lemma ClaimSteps(c: Config, s: Sys, w: WorkerId)
    requires Enabled(c, s, Claim(w))
    ensures Step(c, s, Claim(w)) == AfterClaim(s, w, PcOf(s.pcs, w).m)
  {
  }

  lemma ClaimKeepsRows(c: Config, s: Sys, w: WorkerId)
    requires RowsInv(s) && Enabled(c, s, Claim(w)) && WorkerOk(s, PcOf(s.pcs, w))
    ensures RowsInv(Step(c, s, Claim(w)))
  {
    hide Step;
    ClaimSteps(c, s, w);
    var s' := Step(c, s, Claim(w));
    var m := PcOf(s.pcs, w).m;
    if m.job.Some? {
      var j := m.job.value;
      assert j in s.rows ==> RowOk(s, j);
      OneRow(s, s', j);
    }
  }

  lemma FinishKeepsRows(c: Config, s: Sys, w: WorkerId, outcome: Outcome)
    requires RowsInv(s) && Enabled(c, s, Finish(w, outcome)) && WorkerOk(s, PcOf(s.pcs, w))
    ensures RowsInv(Step(c, s, Finish(w, outcome)))
  {
    var s' := Step(c, s, Finish(w, outcome));
    var m := PcOf(s.pcs, w).m;
    if m.job.Some? {
      var j := m.job.value;
      assert j in s.rows ==> RowOk(s, j);
      OneRow(s, s', j);
    }
  }

  lemma AckRaisesKeepsRows(c: Config, s: Sys, w: WorkerId, exc: Failure)
    requires RowsInv(s) && Enabled(c, s, AckRaises(w, exc)) && WorkerOk(s, PcOf(s.pcs, w))
    ensures RowsInv(Step(c, s, AckRaises(w, exc)))
  {
    var s' := Step(c, s, AckRaises(w, exc));
    var m := PcOf(s.pcs, w).m;
    if m.job.Some? {
      var j := m.job.value;
      assert j in s.rows ==> RowOk(s, j);
      OneRow(s, s', j);
    }
  }

  lemma HeartbeatKeepsRows(c: Config, s: Sys, w: WorkerId, j: JobId)
    requires RowsInv(s)
    ensures RowsInv(Step(c, s, HeartbeatRow(w, j)))
  {
    assert j in s.rows ==> RowOk(s, j);
    OneRow(s, Step(c, s, HeartbeatRow(w, j)), j);
  }

  lemma StepKeepsRows(c: Config, s: Sys, e: Event)
    requires RowsInv(s) && WorkersInv(s) && Enabled(c, s, e)
    ensures RowsInv(Step(c, s, e))
  {
    hide Sent, Requeued, Taken, Acked, Extended, AfterClaim, AfterFinish;
    match e
    case Submit(j, _, _, _) => OneRow(s, Step(c, s, e), j);
    case Claim(w) => assert WorkerOk(s, PcOf(s.pcs, w)); ClaimKeepsRows(c, s, w);
    case Finish(w, outcome) => assert WorkerOk(s, PcOf(s.pcs, w)); FinishKeepsRows(c, s, w, outcome);
    case AckRaises(w, exc) => assert WorkerOk(s, PcOf(s.pcs, w)); AckRaisesKeepsRows(c, s, w, exc);
    case HeartbeatRow(w, j) => HeartbeatKeepsRows(c, s, w, j);
    case Delete(j) => OneRow(s, Step(c, s, e), j);
    case _ => SameRows(s, Step(c, s, e));
  }

  /** Only worker w's position is touched, if any. */
  lemma OneWorker(s: Sys, s': Sys, w: WorkerId)
    requires WorkersInv(s) && Grown(s, s')
    requires forall v :: v != w ==> PcOf(s'.pcs, v) == PcOf(s.pcs, v)
    requires WorkerOk(s', PcOf(s'.pcs, w))
    ensures WorkersInv(s')
  {
    forall v ensures WorkerOk(s', PcOf(s'.pcs, v)) {
      assert WorkerOk(s, PcOf(s.pcs, v));
    }
  }

  lemma SameWorkers(s: Sys, s': Sys)
    requires WorkersInv(s) && Grown(s, s') && s'.pcs == s.pcs
    ensures WorkersInv(s')
  {
    forall v ensures WorkerOk(s', PcOf(s'.pcs, v)) {
      assert WorkerOk(s, PcOf(s.pcs, v));
    }
  }

  lemma SameRows(s: Sys, s': Sys)
    requires RowsInv(s) && s'.rows == s.rows && s'.kinds == s.kinds && s'.claims == s.claims
    ensures RowsInv(s')
  {
    forall j | j in s'.rows ensures RowOk(s', j) {
      assert RowOk(s, j);
    }
  }

  lemma ReceiveKeepsWorkers(c: Config, s: Sys, w: WorkerId)
    requires QueueInv(s) && WorkersInv(s) && Enabled(c, s, Receive(w))
    ensures WorkersInv(Step(c, s, Receive(w)))
  {
    assert MessageOk(s, At(s.q, InReady(|s.q.ready| - 1)));
    OneWorker(s, Step(c, s, Receive(w)), w);
  }

  lemma ClaimKeepsWorkers(c: Config, s: Sys, w: WorkerId)
    requires WorkersInv(s) && Enabled(c, s, Claim(w))
    ensures WorkersInv(Step(c, s, Claim(w)))
  {
    assert WorkerOk(s, PcOf(s.pcs, w));
    OneWorker(s, Step(c, s, Claim(w)), w);
  }

  lemma FinishKeepsWorkers(c: Config, s: Sys, w: WorkerId, outcome: Outcome)
    requires WorkersInv(s) && Enabled(c, s, Finish(w, outcome))
    ensures WorkersInv(Step(c, s, Finish(w, outcome)))
  {
    assert WorkerOk(s, PcOf(s.pcs, w));
    OneWorker(s, Step(c, s, Finish(w, outcome)), w);
  }

  lemma StepKeepsWorkers(c: Config, s: Sys, e: Event)
    requires QueueInv(s) && WorkersInv(s) && Enabled(c, s, e)
    ensures WorkersInv(Step(c, s, e))
  {
    match e
    case Receive(w) => ReceiveKeepsWorkers(c, s, w);
    case Claim(w) => ClaimKeepsWorkers(c, s, w);
    case Finish(w, outcome) => FinishKeepsWorkers(c, s, w, outcome);
    case Ack(w) => OneWorker(s, Step(c, s, e), w);
    case AckRaises(w, _) => OneWorker(s, Step(c, s, e), w);
    case Crash(w) => OneWorker(s, Step(c, s, e), w);
    case Drain(w) => OneWorker(s, Step(c, s, e), w);
    case _ => SameWorkers(s, Step(c, s, e));
  }

  // ---- handles

  ghost predicate NotNewer(s: Sys, m: Message) {
    forall p :: Occupied(s.q, p) && At(s.q, p).id == m.id ==> m.count <= At(s.q, p).count
  }

  lemma SentNotNewer(s: Sys, s': Sys, added: Message, m: Message)
    requires NotNewer(s, m) && s'.q == Sent(s.q, added) && added.id != m.id
    ensures NotNewer(s', m)
  {
    forall p | Occupied(s'.q, p) && At(s'.q, p).id == m.id ensures m.count <= At(s'.q, p).count {
      assert p != InReady(0);
      assert At(s.q, BeforeSent(p)) == At(s'.q, p);
    }
  }

  lemma RequeuedNotNewer(s: Sys, s': Sys, h: Message, m: Message)
    requires NotNewer(s, m) && h in s.q.inflight && s'.q == Requeued(s.q, h)
    ensures NotNewer(s', m)
  {
    forall p | Occupied(s'.q, p) && At(s'.q, p).id == m.id ensures m.count <= At(s'.q, p).count {
      assert At(s.q, BeforeRequeued(s.q, h, p)) == At(s'.q, p);
    }
  }

  lemma TakenNotNewer(c: Config, s: Sys, s': Sys, m: Message)
    requires NotNewer(s, m) && |s.q.ready| > 0
    requires s'.q == Taken(s.q, c.maxReceiveCount, s.clock + c.visibilityTimeout)
    ensures NotNewer(s', m)
  {
    forall p | Occupied(s'.q, p) && At(s'.q, p).id == m.id ensures m.count <= At(s'.q, p).count {
      assert At(s.q, BeforeTaken(s.q, c.maxReceiveCount, p)).count <= At(s'.q, p).count;
    }
  }

  lemma FewerNotNewer(s: Sys, s': Sys, m: Message)
    requires NotNewer(s, m) && s'.q.ready == s.q.ready && s'.q.dead == s.q.dead && s'.q.inflight.Keys <= s.q.inflight.Keys
    ensures NotNewer(s', m)
  {
    forall p | Occupied(s'.q, p) && At(s'.q, p).id == m.id ensures m.count <= At(s'.q, p).count {
      assert At(s.q, p) == At(s'.q, p);
    }
  }

  lemma StillNotNewer(c: Config, s: Sys, e: Event, m: Message)
    requires Enabled(c, s, e) && NotNewer(s, m) && m.id < s.sent
    ensures NotNewer(Step(c, s, e), m)
  {
    hide NotNewer;
    var s' := Step(c, s, e);
    match e
    case Enqueue(j, payload) => SentNotNewer(s, s', Message(s.sent, s.kinds[j], Some(j), payload, 0), m);
    case EnqueueBare(kind, payload) => SentNotNewer(s, s', Message(s.sent, kind, None, payload, 0), m);
    case Requeue(h) => RequeuedNotNewer(s, s', h, m);
    case Bury => TakenNotNewer(c, s, s', m);
    case Receive(_) => TakenNotNewer(c, s, s', m);
    case _ => FewerNotNewer(s, s', m);
  }

  /** A worker's message is the one it received. */
  lemma SameMessage(c: Config, s: Sys, e: Event, w: WorkerId)
    requires Enabled(c, s, e) && e != Receive(w)
    ensures HasMessage(PcOf(Step(c, s, e).pcs, w)) ==>
      HasMessage(PcOf(s.pcs, w)) && PcOf(Step(c, s, e).pcs, w).m == PcOf(s.pcs, w).m
  {
    hide Sent, Requeued, Taken, Acked, Extended;
  }

  lemma StepKeepsHandles(c: Config, s: Sys, e: Event)
    requires QueueInv(s) && WorkersInv(s) && HandlesInv(s) && Enabled(c, s, e)
    ensures HandlesInv(Step(c, s, e))
  {
    var s' := Step(c, s, e);
    forall w | HasMessage(PcOf(s'.pcs, w)) ensures NotNewer(s', PcOf(s'.pcs, w).m) {
      if e == Receive(w) {
        ReceivedHandle(c, s, w);
      } else {
        SameMessage(c, s, e, w);
        assert WorkerOk(s, PcOf(s.pcs, w));
        StillNotNewer(c, s, e, PcOf(s.pcs, w).m);
      }
    }
    forall w, w' | HasMessage(PcOf(s'.pcs, w)) && HasMessage(PcOf(s'.pcs, w')) && w != w'
      ensures PcOf(s'.pcs, w).m != PcOf(s'.pcs, w').m
    {
      DistinctHandles(c, s, e, w, w');
    }
  }

  lemma DistinctHandles(c: Config, s: Sys, e: Event, w: WorkerId, w': WorkerId)
    requires QueueInv(s) && HandlesInv(s) && Enabled(c, s, e) && w != w'
    requires var pcs := Step(c, s, e).pcs; HasMessage(PcOf(pcs, w)) && HasMessage(PcOf(pcs, w'))
    ensures var pcs := Step(c, s, e).pcs; PcOf(pcs, w).m != PcOf(pcs, w').m
  {
    if e == Receive(w) {
      SameMessage(c, s, e, w');
      ReceivedHandle(c, s, w);
    } else if e == Receive(w') {
      SameMessage(c, s, e, w);
      ReceivedHandle(c, s, w');
    } else {
      SameMessage(c, s, e, w);
      SameMessage(c, s, e, w');
    }
  }

  /** What a worker receives is what is now leased, and no other worker's handle. */
  lemma ReceivedHandle(c: Config, s: Sys, w: WorkerId)
    requires QueueInv(s) && HandlesInv(s) && Enabled(c, s, Receive(w))
    ensures var s' := Step(c, s, Receive(w)); var m := PcOf(s'.pcs, w).m;
            && m in s'.q.inflight && NotNewer(s', m) && m.count <= c.maxReceiveCount
            && forall v :: v != w && HasMessage(PcOf(s.pcs, v)) ==> PcOf(s.pcs, v).m != m
  {
    var s' := Step(c, s, Receive(w));
    var m := PcOf(s'.pcs, w).m;
    var last := InReady(|s.q.ready| - 1);
    assert At(s.q, last) == Last(s.q.ready);
    forall v | v != w && HasMessage(PcOf(s.pcs, v)) ensures PcOf(s.pcs, v).m != m {
      assert NotNewer(s, PcOf(s.pcs, v).m);
    }
    TakenApart(s.q, c.maxReceiveCount, s.clock + c.visibilityTimeout);
    assert Occupied(s'.q, InFlight(m));
  }

  lemma StepKeepsInv(c: Config, s: Sys, e: Event)
    requires Inv(s) && Enabled(c, s, e)
    ensures Inv(Step(c, s, e))
  {
    StepKeepsQueue(c, s, e);
    StepKeepsRows(c, s, e);
    StepKeepsWorkers(c, s, e);
    StepKeepsHandles(c, s, e);
  }

  lemma {:induction false} RunKeepsInv(c: Config, s: Sys, es: seq<Event>)
    requires Inv(s) && Runs(c, s, es)
    ensures Inv(After(c, s, es))
    decreases |es|
  {
    if es != [] {
      StepKeepsInv(c, s, es[0]);
      RunKeepsInv(c, Step(c, s, es[0]), es[1..]);
    }
  }

  /** In every run, crashes, lapsed leases, duplicate messages and late finishers
      included, a job's handler is started at most `max_attempts` times, and `attempt`
      says how often it was. */
  lemma AttemptBudget(c: Config, clock: int, es: seq<Event>, j: JobId)
    requires Runs(c, Start(clock), es)
    ensures var s := After(c, Start(clock), es);
            j in s.rows ==>
              && s.rows[j].attempt == s.claims[j]
              && s.claims[j] <= if s.rows[j].maxAttempts > 0 then s.rows[j].maxAttempts else 0
  {
    RunKeepsInv(c, Start(clock), es);
    var s := After(c, Start(clock), es);
    assert j in s.rows ==> RowOk(s, j);
  }

  /** In every run every row has the shape its status promises; in particular a failed
      job can always be claimed again, and nothing else than a lapsed lease can make a
      running one claimable. */
  lemma RowsKeepShape(c: Config, clock: int, es: seq<Event>, j: JobId)
    requires Runs(c, Start(clock), es)
    ensures var s := After(c, Start(clock), es);
            j in s.rows ==>
              && RowShape(s.rows[j])
              && (s.rows[j].status == Failed ==> CanClaim(s.rows, j, s.clock))
              && (Terminal(s.rows[j]) ==> !CanClaim(s.rows, j, s.clock))
  {
    RunKeepsInv(c, Start(clock), es);
    var s := After(c, Start(clock), es);
    assert j in s.rows ==> RowOk(s, j);
  }

  lemma StillKnown(c: Config, s: Sys, e: Event, j: JobId)
    requires Enabled(c, s, e) && j in s.kinds
    ensures j in Step(c, s, e).kinds
  {
  }

  /** A deleted job does not come back: its id is taken. */
  lemma {:induction false} DeletedForGood(c: Config, s: Sys, es: seq<Event>, j: JobId)
    requires Runs(c, s, es) && j in s.kinds && j !in s.rows
    ensures j !in After(c, s, es).rows
    decreases |es|
  {
    if es != [] {
      DeletedForGood(c, Step(c, s, es[0]), es[1..], j);
    }
  }

  // ---- states some run reaches

  ghost predicate Reachable(c: Config, clock: int, s: Sys) {
    exists es :: Runs(c, Start(clock), es) && After(c, Start(clock), es) == s
  }

  lemma {:induction false} RunsAppend(c: Config, s: Sys, es: seq<Event>, fs: seq<Event>)
    requires Runs(c, s, es) && Runs(c, After(c, s, es), fs)
    ensures Runs(c, s, es + fs) && After(c, s, es + fs) == After(c, After(c, s, es), fs)
    decreases |es|
  {
    if es == [] {
      assert es + fs == fs;
    } else {
      RunsAppend(c, Step(c, s, es[0]), es[1..], fs);
      assert (es + fs)[1..] == es[1..] + fs;
    }
  }

  lemma RunsOne(c: Config, s: Sys, e: Event)
    requires Enabled(c, s, e)
    ensures Runs(c, s, [e]) && After(c, s, [e]) == Step(c, s, e)
  {
    var s' := Step(c, s, e);
    assert [e][1..] == [];
    assert Runs(c, s', []) && After(c, s', []) == s';
  }

  lemma RunsCons(c: Config, s: Sys, e: Event, es: seq<Event>)
    requires Enabled(c, s, e) && Runs(c, Step(c, s, e), es)
    ensures Runs(c, s, [e] + es) && After(c, s, [e] + es) == After(c, Step(c, s, e), es)
  {
    assert ([e] + es)[1..] == es;
  }

  lemma RunsTwo(c: Config, s: Sys, e0: Event, e1: Event)
    requires Enabled(c, s, e0) && Enabled(c, Step(c, s, e0), e1)
    ensures Runs(c, s, [e0, e1]) && After(c, s, [e0, e1]) == Step(c, Step(c, s, e0), e1)
  {
    RunsOne(c, Step(c, s, e0), e1);
    RunsCons(c, s, e0, [e1]);
    assert [e0] + [e1] == [e0, e1];
  }

  lemma Onward(c: Config, clock: int, s: Sys, e: Event) returns (s': Sys)
    requires Reachable(c, clock, s) && Enabled(c, s, e)
    ensures s' == Step(c, s, e) && Reachable(c, clock, s')
  {
    var es :| Runs(c, Start(clock), es) && After(c, Start(clock), es) == s;
    s' := Step(c, s, e);
    RunsOne(c, s, e);
    RunsAppend(c, Start(clock), es, [e]);
  }

  /** One transcribe job submitted, enqueued, and received by a worker. */
  lemma OneReceived(c: Config, clock: int, j: JobId, w: WorkerId, maxAttempts: int) returns (s: Sys)
    requires c.maxReceiveCount >= 1
    ensures var m := Message(0, "transcribe", Some(j), "", 1);
            && Reachable(c, clock, s) && s.clock == clock && s.sent == 1 && s.kinds == map[j := "transcribe"]
            && s.rows == map[j := NewJob("transcribe", "", maxAttempts, clock)]
            && s.q == State([], map[m := clock + c.visibilityTimeout], [])
            && s.pcs == map[w := Polled(m)]
  {
    s := Start(clock);
    assert Runs(c, s, []);
    s := Onward(c, clock, s, Submit(j, "transcribe", "", maxAttempts));
    s := Onward(c, clock, s, Enqueue(j, ""));
    assert s.q == State([Message(0, "transcribe", Some(j), "", 0)], map[], []);
    s := Onward(c, clock, s, Receive(w));
  }

  /** The same, claimed. */
  lemma OneHandled(c: Config, clock: int, j: JobId, w: WorkerId, maxAttempts: int) returns (s: Sys)
    requires c.maxReceiveCount >= 1 && maxAttempts >= 1
    ensures var m := Message(0, "transcribe", Some(j), "", 1);
            && Reachable(c, clock, s) && s.clock == clock && s.sent == 1 && s.kinds == map[j := "transcribe"]
            && s.rows == map[j := Leased(NewJob("transcribe", "", maxAttempts, clock), w, LEASE_SECONDS, clock)]
            && s.q == State([], map[m := clock + c.visibilityTimeout], [])
            && s.pcs == map[w := Handling(m)]
  {
    s := OneReceived(c, clock, j, w, maxAttempts);
    s := Onward(c, clock, s, Event.Claim(w));
  }
}
