/**
 Whole runs of the queue (edlo/queue/rq_queue.py).

 A run is any interleaving of sends, noticed expiries, takes, acks and lease
 extensions, one message at a time, under a clock that never goes back. Acks and
 extensions may name any handle at all: current, stale, acked or made up.
 `Receive` is one such run (ReceiveIsARun), so what holds of every run holds of
 every sequence of the queue's methods.
 */
module QueueRuns {
  import opened Wrappers
  import opened Queue

  datatype Config = Config(visibilityTimeout: int, maxReceiveCount: int)

  datatype Event =
    | Enqueue(kind: string, job: Option<string>, payload: string, delaySeconds: int)
    | Requeue(m: Message)
    | Take
    | Ack(m: Message)
    | Extend(m: Message, seconds: int)
    | Tick(elapsed: nat)

  /** The queue and its history: undelayed ids in sending order, delayed ids, every
      delivery in order, acked ids, and the last deadline written for each handle. */
  datatype Trace = Trace(
    q: State, clock: int, issued: nat,
    arrivals: seq<nat>, delayed: set<nat>, log: seq<Message>, acked: set<nat>, due: map<Message, int>)

  function Start(clock: int): Trace { Trace(EMPTY, clock, 0, [], {}, [], {}, map[]) }

  predicate Enabled(t: Trace, e: Event) {
    match e
    case Requeue(m) => Expired(t.q, m, t.clock)
    case Take => t.q.ready != []
    case _ => true
  }

  function Step(c: Config, t: Trace, e: Event): Trace
    requires Enabled(t, e)
  {
    match e
    case Enqueue(kind, job, payload, delay) =>
      var m := Message(t.issued, kind, job, payload, 0);
      if delay != 0
      then t.(q := Scheduled(t.q, m, t.clock + delay), issued := t.issued + 1,
              delayed := t.delayed + {m.id}, due := t.due[m := t.clock + delay])
      else t.(q := Sent(t.q, m), issued := t.issued + 1, arrivals := t.arrivals + [m.id])
    case Requeue(m) => t.(q := Requeued(t.q, m))
    case Take =>
      var m := Redelivery(Last(t.q.ready));
      var deadline := t.clock + c.visibilityTimeout;
      var q := Taken(t.q, c.maxReceiveCount, deadline);
      if OverLimit(t.q, c.maxReceiveCount) then t.(q := q)
      else t.(q := q, log := t.log + [m], due := t.due[m := deadline])
    case Ack(m) =>
      t.(q := Acked(t.q, m), acked := if m in t.q.inflight then t.acked + {m.id} else t.acked)
    case Extend(m, seconds) =>
      var deadline := t.clock + seconds;
      t.(q := Extended(t.q, m, deadline), due := if m in t.q.inflight then t.due[m := deadline] else t.due)
    case Tick(elapsed) => t.(clock := t.clock + elapsed)
  }

  predicate Runs(c: Config, t: Trace, es: seq<Event>)
    decreases |es|
  {
    es == [] || (Enabled(t, es[0]) && Runs(c, Step(c, t, es[0]), es[1..]))
  }

  function After(c: Config, t: Trace, es: seq<Event>): Trace
    requires Runs(c, t, es)
    decreases |es|
  {
    if es == [] then t else After(c, Step(c, t, es[0]), es[1..])
  }

  // ---- counting deliveries

  /** Deliveries of `id` among the first k entries of the log. */
  function Deliveries(log: seq<Message>, k: nat, id: nat): nat
    requires k <= |log|
  {
    if k == 0 then 0 else Deliveries(log, k - 1, id) + (if log[k - 1].id == id then 1 else 0)
  }

  lemma {:induction false} DeliveriesStable(log: seq<Message>, m: Message, k: nat, id: nat)
    requires k <= |log|
    ensures Deliveries(log + [m], k, id) == Deliveries(log, k, id)
    decreases k
  {
    if k > 0 {
      DeliveriesStable(log, m, k - 1, id);
    }
  }

  lemma {:induction false} DeliveriesGrow(log: seq<Message>, k: nat, l: nat, id: nat)
    requires k <= l <= |log|
    ensures Deliveries(log, k, id) <= Deliveries(log, l, id)
    ensures forall p :: k <= p < l && log[p].id == id ==> Deliveries(log, k, id) < Deliveries(log, l, id)
    decreases l
  {
    if k < l {
      DeliveriesGrow(log, k, l - 1, id);
    }
  }

  // ---- the invariant

  /** What is known of the message in one place: it was issued and never acked; its
      count is the number of its deliveries (one more once dead, past the limit); and
      its last deadline is on record, and has passed if it waits. */
  ghost predicate Right(c: Config, t: Trace, s: Slot)
    requires Occupied(t.q, s)
  {
    var m := At(t.q, s);
    && m.id < t.issued && m.id !in t.acked
    && m.count == Deliveries(t.log, |t.log|, m.id) + (if s.InDead? then 1 else 0)
    && (match s
        case InDead(_) => m.count > c.maxReceiveCount
        case InFlight(_) => m in t.due && t.due[m] == t.q.inflight[m] && (m.count == 0 ==> m.id in t.delayed)
        case InReady(_) => (m in t.due ==> t.due[m] <= t.clock) && (m.count > 0 || m.id in t.delayed ==> m in t.due))
  }

  /** Every delivery carries its ordinal, and no message is delivered past the limit. */
  ghost predicate LogRight(log: seq<Message>, issued: nat, limit: int) {
    && (forall p :: 0 <= p < |log| ==> log[p].id < issued && log[p].count == Deliveries(log, p + 1, log[p].id))
    && (forall id :: id >= issued ==> Deliveries(log, |log|, id) == 0)
    && (forall id :: Deliveries(log, |log|, id) <= if limit > 0 then limit else 0)
  }

  ghost predicate HistoryRight(c: Config, t: Trace) {
    && (forall id :: id in t.acked || id in t.delayed ==> id < t.issued)
    && (forall m :: m in t.due ==> m.id < t.issued)
    && LogRight(t.log, t.issued, c.maxReceiveCount)
  }

  ghost predicate Inv(c: Config, t: Trace) {
    && Apart(t.q)
    && HistoryRight(c, t)
    && (forall s :: Occupied(t.q, s) ==> Right(c, t, s))
  }

  lemma EnqueueKeepsInv(c: Config, t: Trace, e: Event)
    requires Inv(c, t) && e.Enqueue? && e.delaySeconds == 0
    ensures Inv(c, Step(c, t, e))
  {
    var t' := Step(c, t, e);
    var m := Message(t.issued, e.kind, e.job, e.payload, 0);
    forall s | Occupied(t.q, s) ensures At(t.q, s).id != m.id {
      assert Right(c, t, s);
    }
    SentApart(t.q, m);
    forall s | Occupied(t'.q, s) ensures Right(c, t', s) {
      assert s == InReady(0) || Right(c, t, BeforeSent(s));
    }
  }

  lemma ScheduleKeepsInv(c: Config, t: Trace, e: Event)
    requires Inv(c, t) && e.Enqueue? && e.delaySeconds != 0
    ensures Inv(c, Step(c, t, e))
  {
    var t' := Step(c, t, e);
    var m := Message(t.issued, e.kind, e.job, e.payload, 0);
    forall s | Occupied(t.q, s) ensures At(t.q, s).id != m.id {
      assert Right(c, t, s);
    }
    ScheduledApart(t.q, m, t.clock + e.delaySeconds);
    forall s | Occupied(t'.q, s) ensures Right(c, t', s) {
      assert s == InFlight(m) || Right(c, t, s);
    }
  }

  lemma RequeueKeepsInv(c: Config, t: Trace, m: Message)
    requires Inv(c, t) && Enabled(t, Requeue(m))
    ensures Inv(c, Step(c, t, Requeue(m)))
  {
    var t' := Step(c, t, Requeue(m));
    RequeuedApart(t.q, m);
    forall s | Occupied(t'.q, s) ensures Right(c, t', s) {
      assert Right(c, t, BeforeRequeued(t.q, m, s));
    }
  }

  lemma BuryKeepsInv(c: Config, t: Trace)
    requires Inv(c, t) && Enabled(t, Take) && OverLimit(t.q, c.maxReceiveCount)
    ensures Inv(c, Step(c, t, Take))
  {
    var t' := Step(c, t, Take);
    TakenApart(t.q, c.maxReceiveCount, t.clock + c.visibilityTimeout);
    forall s | Occupied(t'.q, s) ensures Right(c, t', s) {
      assert Right(c, t, BeforeTaken(t.q, c.maxReceiveCount, s));
    }
  }

  lemma DeliveriesAppend(log: seq<Message>, m: Message)
    ensures forall k, id :: 0 <= k <= |log| ==> Deliveries(log + [m], k, id) == Deliveries(log, k, id)
    ensures forall id :: Deliveries(log + [m], |log| + 1, id) == Deliveries(log, |log|, id) + if m.id == id then 1 else 0
  {
    forall k, id | 0 <= k <= |log| ensures Deliveries(log + [m], k, id) == Deliveries(log, k, id) {
      DeliveriesStable(log, m, k, id);
    }
  }

  lemma LogAppend(log: seq<Message>, m: Message, issued: nat, limit: int)
    requires LogRight(log, issued, limit)
    requires m.id < issued && m.count == Deliveries(log, |log|, m.id) + 1 <= limit
    ensures LogRight(log + [m], issued, limit)
  {
    var log' := log + [m];
    DeliveriesAppend(log, m);
    forall p | 0 <= p < |log'| ensures log'[p].count == Deliveries(log', p + 1, log'[p].id) && log'[p].id < issued {
      if p < |log| {
        assert log'[p] == log[p];
        assert Deliveries(log', p + 1, log[p].id) == Deliveries(log, p + 1, log[p].id);
      }
    }
    forall id ensures Deliveries(log', |log'|, id) <= if limit > 0 then limit else 0 {
      assert Deliveries(log', |log| + 1, id) == Deliveries(log, |log|, id) + if m.id == id then 1 else 0;
    }
  }

  lemma LeaseKeepsInv(c: Config, t: Trace)
    requires Inv(c, t) && Enabled(t, Take) && !OverLimit(t.q, c.maxReceiveCount)
    ensures Inv(c, Step(c, t, Take))
  {
    hide Deliveries, LogRight;
    var t' := Step(c, t, Take);
    var last := InReady(|t.q.ready| - 1);
    assert At(t.q, last) == Last(t.q.ready) && Right(c, t, last);
    var m := Redelivery(Last(t.q.ready));
    LogAppend(t.log, m, t.issued, c.maxReceiveCount);
    TakenApart(t.q, c.maxReceiveCount, t.clock + c.visibilityTimeout);
    forall s | Occupied(t'.q, s) ensures Right(c, t', s) {
      var b := BeforeTaken(t.q, c.maxReceiveCount, s);
      assert Right(c, t, b);
      DeliveriesAppend(t.log, m);
      assert b != last ==> At(t.q, b).id != m.id;
    }
  }

  lemma AckKeepsInv(c: Config, t: Trace, m: Message)
    requires Inv(c, t)
    ensures Inv(c, Step(c, t, Ack(m)))
  {
    var t' := Step(c, t, Ack(m));
    AckedApart(t.q, m);
    assert m in t.q.inflight ==> Right(c, t, InFlight(m));
    forall s | Occupied(t'.q, s) ensures Right(c, t', s) {
      assert Right(c, t, s);
    }
  }

  lemma ExtendKeepsInv(c: Config, t: Trace, m: Message, seconds: int)
    requires Inv(c, t)
    ensures Inv(c, Step(c, t, Extend(m, seconds)))
  {
    var t' := Step(c, t, Extend(m, seconds));
    ExtendedApart(t.q, m, t.clock + seconds);
    forall s | Occupied(t'.q, s) ensures Right(c, t', s) {
      assert Right(c, t, s);
      assert m in t.q.inflight && s.InReady? ==> At(t.q, s).id != At(t.q, InFlight(m)).id;
    }
    assert m in t.q.inflight ==> Right(c, t, InFlight(m));
  }

  lemma TickKeepsInv(c: Config, t: Trace, elapsed: nat)
    requires Inv(c, t)
    ensures Inv(c, Step(c, t, Tick(elapsed)))
  {
    var t' := Step(c, t, Tick(elapsed));
    forall s | Occupied(t'.q, s) ensures Right(c, t', s) {
      assert Right(c, t, s);
    }
  }

  lemma StepKeepsInv(c: Config, t: Trace, e: Event)
    requires Inv(c, t) && Enabled(t, e)
    ensures Inv(c, Step(c, t, e))
  {
    match e
    case Enqueue(_, _, _, delay) => if delay == 0 { EnqueueKeepsInv(c, t, e); } else { ScheduleKeepsInv(c, t, e); }
    case Requeue(m) => RequeueKeepsInv(c, t, m);
    case Take => if OverLimit(t.q, c.maxReceiveCount) { BuryKeepsInv(c, t); } else { LeaseKeepsInv(c, t); }
    case Ack(m) => AckKeepsInv(c, t, m);
    case Extend(m, seconds) => ExtendKeepsInv(c, t, m, seconds);
    case Tick(elapsed) => TickKeepsInv(c, t, elapsed);
  }

  lemma {:induction false} RunKeepsInv(c: Config, t: Trace, es: seq<Event>)
    requires Inv(c, t) && Runs(c, t, es)
    ensures Inv(c, After(c, t, es))
    decreases |es|
  {
    if es != [] {
      StepKeepsInv(c, t, es[0]);
      RunKeepsInv(c, Step(c, t, es[0]), es[1..]);
    }
  }

  lemma {:induction false} StartInv(c: Config, clock: int)
    ensures Inv(c, Start(clock))
  {
    assert forall id :: Deliveries(Start(clock).log, 0, id) == 0;
  }

  lemma Reached(c: Config, clock: int, es: seq<Event>)
    requires Runs(c, Start(clock), es)
    ensures Inv(c, After(c, Start(clock), es))
  {
    StartInv(c, clock);
    RunKeepsInv(c, Start(clock), es);
  }

  // ---- what every run keeps

  /** `receive_count` says how often the message has been delivered, this time included,
      and that is never more than the limit. */
  lemma CountIsOrdinal(c: Config, clock: int, es: seq<Event>)
    requires Runs(c, Start(clock), es)
    ensures var t := After(c, Start(clock), es);
            && (forall p :: 0 <= p < |t.log| ==>
                  1 <= t.log[p].count == Deliveries(t.log, p + 1, t.log[p].id) <= c.maxReceiveCount)
            && (forall id :: Deliveries(t.log, |t.log|, id) <= if c.maxReceiveCount > 0 then c.maxReceiveCount else 0)
  {
    Reached(c, clock, es);
    var t := After(c, Start(clock), es);
    forall p | 0 <= p < |t.log| ensures 1 <= t.log[p].count <= c.maxReceiveCount {
      DeliveriesGrow(t.log, p + 1, |t.log|, t.log[p].id);
      assert Deliveries(t.log, p + 1, t.log[p].id) >= 1;
    }
  }

  /** A message is not handed out before the last deadline written for its handle: not
      a delayed one before its delay, nor a leased one before its lease, as extended. */
  lemma NeverEarly(c: Config, clock: int, es: seq<Event>)
    requires Runs(c, Start(clock), es)
    requires var t := After(c, Start(clock), es); Enabled(t, Take) && !OverLimit(t.q, c.maxReceiveCount)
    ensures var t := After(c, Start(clock), es);
            var m := Last(t.q.ready);
            && Step(c, t, Take).log == t.log + [Redelivery(m)]
            && (m.count > 0 || m.id in t.delayed ==> m in t.due)
            && (m in t.due ==> t.due[m] <= t.clock)
  {
    Reached(c, clock, es);
    var t := After(c, Start(clock), es);
    assert Right(c, t, InReady(|t.q.ready| - 1));
  }

  /** A handle from an earlier delivery, or of an acked message, can neither remove nor
      extend anything. */
  lemma StaleHandleIsHarmless(c: Config, clock: int, es: seq<Event>, p: nat, deadline: int)
    requires Runs(c, Start(clock), es)
    requires var t := After(c, Start(clock), es);
             && p < |t.log|
             && (t.log[p].id in t.acked || exists r :: p < r < |t.log| && t.log[r].id == t.log[p].id)
    ensures var t := After(c, Start(clock), es);
            Acked(t.q, t.log[p]) == t.q && Extended(t.q, t.log[p], deadline) == t.q
  {
    Reached(c, clock, es);
    var t := After(c, Start(clock), es);
    var h := t.log[p];
    DeliveriesGrow(t.log, p + 1, |t.log|, h.id);
    assert h in t.q.inflight ==> Right(c, t, InFlight(h));
    assert t.q.inflight - {h} == t.q.inflight;
  }

  ghost predicate Finished(t: Trace, id: nat) {
    id in t.acked || exists i :: 0 <= i < |t.q.dead| && t.q.dead[i].id == id
  }

  lemma FinishedStays(c: Config, t: Trace, e: Event, id: nat)
    requires Inv(c, t) && Enabled(t, e) && Finished(t, id)
    ensures var t' := Step(c, t, e);
            Finished(t', id) && Deliveries(t'.log, |t'.log|, id) == Deliveries(t.log, |t.log|, id)
  {
    var t' := Step(c, t, e);
    if e.Take? {
      var last := InReady(|t.q.ready| - 1);
      assert Right(c, t, last);
      if id !in t.acked {
        var i :| 0 <= i < |t.q.dead| && t.q.dead[i].id == id;
        assert At(t.q, InDead(i)).id == id && At(t.q, last).id != id;
        assert t'.q.dead[if OverLimit(t.q, c.maxReceiveCount) then i + 1 else i].id == id;
      }
      DeliveriesAppend(t.log, Redelivery(Last(t.q.ready)));
    }
  }

  /** An acked or dead-lettered message is never delivered again. */
  lemma {:induction false} FinishedForGood(c: Config, t: Trace, es: seq<Event>, id: nat)
    requires Inv(c, t) && Runs(c, t, es) && Finished(t, id)
    ensures var t' := After(c, t, es);
            Finished(t', id) && Deliveries(t'.log, |t'.log|, id) == Deliveries(t.log, |t.log|, id)
    decreases |es|
  {
    if es != [] {
      StepKeepsInv(c, t, es[0]);
      FinishedStays(c, t, es[0], id);
      FinishedForGood(c, Step(c, t, es[0]), es[1..], id);
    }
  }

  // ---- first in, first out

  /** A message sent without a delay and never delivered. */
  predicate Fresh(m: Message, delayed: set<nat>) { m.count == 0 && m.id !in delayed }

  /** Fresh ids waiting, the next to go first. */
  function Waiting(ready: seq<Message>, delayed: set<nat>): seq<nat> {
    if ready == [] then []
    else Waiting(ready[1..], delayed) + (if Fresh(ready[0], delayed) then [ready[0].id] else [])
  }

  /** Ids sent without a delay, in the order of their first deliveries. */
  function Firsts(log: seq<Message>, delayed: set<nat>): seq<nat>
    decreases |log|
  {
    if log == [] then []
    else Firsts(ButLast(log), delayed) + (if Last(log).count == 1 && Last(log).id !in delayed then [Last(log).id] else [])
  }

  lemma {:induction false} WaitingAtFront(ready: seq<Message>, m: Message, delayed: set<nat>)
    ensures Waiting(ready + [m], delayed) == (if Fresh(m, delayed) then [m.id] else []) + Waiting(ready, delayed)
  {
    if ready != [] {
      WaitingAtFront(ready[1..], m, delayed);
      assert (ready + [m])[1..] == ready[1..] + [m];
    } else {
      assert (ready + [m])[1..] == [];
    }
  }

  lemma {:induction false} DelayedElsewhere(ready: seq<Message>, log: seq<Message>, delayed: set<nat>, id: nat)
    requires forall i :: 0 <= i < |ready| ==> ready[i].id != id
    requires forall p :: 0 <= p < |log| ==> log[p].id != id
    ensures Waiting(ready, delayed + {id}) == Waiting(ready, delayed)
    ensures Firsts(log, delayed + {id}) == Firsts(log, delayed)
    decreases |ready| + |log|
  {
    if ready != [] {
      DelayedElsewhere(ready[1..], [], delayed, id);
    }
    if log != [] {
      DelayedElsewhere([], ButLast(log), delayed, id);
    }
  }

  ghost predicate InOrder(t: Trace) {
    t.arrivals == Firsts(t.log, t.delayed) + Waiting(t.q.ready, t.delayed)
  }

  lemma StepKeepsOrder(c: Config, t: Trace, e: Event)
    requires Inv(c, t) && Enabled(t, e) && InOrder(t) && c.maxReceiveCount >= 1
    ensures InOrder(Step(c, t, e))
  {
    var t' := Step(c, t, e);
    match e
    case Enqueue(_, _, _, delay) =>
      if delay != 0 {
        forall i | 0 <= i < |t.q.ready| ensures t.q.ready[i].id != t.issued {
          assert Right(c, t, InReady(i));
        }
        DelayedElsewhere(t.q.ready, t.log, t.delayed, t.issued);
      } else {
        assert t'.q.ready[1..] == t.q.ready;
        assert t'.q.ready[0].id !in t.delayed;
      }
    case Requeue(m) =>
      assert Right(c, t, InFlight(m));
      WaitingAtFront(t.q.ready, m, t.delayed);
      assert [] + Waiting(t.q.ready, t.delayed) == Waiting(t.q.ready, t.delayed);
    case Take =>
      TakeKeepsOrder(c, t);
    case _ =>
  }

  lemma FirstsAfter(log: seq<Message>, m: Message, delayed: set<nat>)
    ensures Firsts(log + [m], delayed) == Firsts(log, delayed) + (if m.count == 1 && m.id !in delayed then [m.id] else [])
  {
    assert ButLast(log + [m]) == log;
  }

  lemma TakeKeepsOrder(c: Config, t: Trace)
    requires Enabled(t, Take) && InOrder(t) && c.maxReceiveCount >= 1
    ensures InOrder(Step(c, t, Take))
  {
    hide Waiting, Firsts;
    var last := Last(t.q.ready);
    var rest := ButLast(t.q.ready);
    var mine := if Fresh(last, t.delayed) then [last.id] else [];
    assert t.q.ready == rest + [last];
    WaitingAtFront(rest, last, t.delayed);
    FirstsAfter(t.log, Redelivery(last), t.delayed);
    Assoc(Firsts(t.log, t.delayed), mine, Waiting(rest, t.delayed));
    assert Firsts(t.log, t.delayed) + [] == Firsts(t.log, t.delayed);
  }

  lemma {:induction false} RunKeepsOrder(c: Config, t: Trace, es: seq<Event>)
    requires Inv(c, t) && Runs(c, t, es) && InOrder(t) && c.maxReceiveCount >= 1
    ensures InOrder(After(c, t, es))
    decreases |es|
  {
    if es != [] {
      StepKeepsInv(c, t, es[0]);
      StepKeepsOrder(c, t, es[0]);
      RunKeepsOrder(c, Step(c, t, es[0]), es[1..]);
    }
  }

  /** Where in the log the k-th first delivery is. */
  function FirstAt(log: seq<Message>, delayed: set<nat>, k: nat): (p: nat)
    requires k < |Firsts(log, delayed)|
    ensures p < |log| && log[p].id == Firsts(log, delayed)[k]
    decreases |log|
  {
    if k < |Firsts(ButLast(log), delayed)| then FirstAt(ButLast(log), delayed, k) else |log| - 1
  }

  lemma {:induction false} FirstsOrdered(log: seq<Message>, delayed: set<nat>, j: nat, k: nat)
    requires j < k < |Firsts(log, delayed)|
    ensures FirstAt(log, delayed, j) < FirstAt(log, delayed, k)
    decreases |log|
  {
    if k < |Firsts(ButLast(log), delayed)| {
      FirstsOrdered(ButLast(log), delayed, j, k);
    }
  }

  lemma {:induction false} FirstDeliveryListed(log: seq<Message>, delayed: set<nat>, p: nat)
    requires p < |log| && log[p].count == 1 && log[p].id !in delayed
    ensures exists k :: 0 <= k < |Firsts(log, delayed)| && Firsts(log, delayed)[k] == log[p].id && FirstAt(log, delayed, k) == p
    decreases |log|
  {
    var front := ButLast(log);
    if p < |front| {
      FirstDeliveryListed(front, delayed, p);
      var k :| 0 <= k < |Firsts(front, delayed)| && Firsts(front, delayed)[k] == log[p].id && FirstAt(front, delayed, k) == p;
      assert Firsts(log, delayed)[k] == log[p].id && FirstAt(log, delayed, k) == p;
    } else {
      var k := |Firsts(front, delayed)|;
      assert Firsts(log, delayed)[k] == log[p].id && FirstAt(log, delayed, k) == p;
    }
  }

  lemma {:induction false} FirstDelivery(log: seq<Message>, p: nat)
    requires p < |log|
    ensures exists r :: 0 <= r <= p && log[r].id == log[p].id && Deliveries(log, r + 1, log[r].id) == 1
    decreases p
  {
    if Deliveries(log, p, log[p].id) > 0 {
      var q := LatestBefore(log, p, log[p].id);
      FirstDelivery(log, q);
    } else {
      assert Deliveries(log, p + 1, log[p].id) == 1;
    }
  }

  lemma {:induction false} LatestBefore(log: seq<Message>, k: nat, id: nat) returns (q: nat)
    requires k <= |log| && Deliveries(log, k, id) > 0
    ensures q < k && log[q].id == id
    decreases k
  {
    if log[k - 1].id == id {
      q := k - 1;
    } else {
      q := LatestBefore(log, k - 1, id);
    }
  }

  /** Of two undelayed messages, the one sent first is first delivered first: before any
      delivery of the later one comes a delivery of the earlier one. */
  lemma FirstInFirstOut(c: Config, clock: int, es: seq<Event>, i: nat, j: nat, p: nat)
    requires Runs(c, Start(clock), es)
    requires var t := After(c, Start(clock), es);
             i < j < |t.arrivals| && p < |t.log| && t.log[p].id == t.arrivals[j]
    ensures var t := After(c, Start(clock), es);
            exists r :: 0 <= r < p && t.log[r].id == t.arrivals[i]
  {
    var t := After(c, Start(clock), es);
    CountIsOrdinal(c, clock, es);
    StartInv(c, clock);
    RunKeepsOrder(c, Start(clock), es);
    RunKeepsArrivals(c, Start(clock), es);
    FirstDelivery(t.log, p);
    var first :| 0 <= first <= p && t.log[first].id == t.log[p].id && Deliveries(t.log, first + 1, t.log[first].id) == 1;
    FirstDeliveryListed(t.log, t.delayed, first);
    var firsts := Firsts(t.log, t.delayed);
    var k :| 0 <= k < |firsts| && firsts[k] == t.log[first].id && FirstAt(t.log, t.delayed, k) == first;
    assert t.arrivals[k] == firsts[k];
    FirstsOrdered(t.log, t.delayed, i, k);
    assert t.log[FirstAt(t.log, t.delayed, i)].id == t.arrivals[i];
  }

  ghost predicate ArrivalsRight(t: Trace) {
    && (forall i :: 0 <= i < |t.arrivals| ==> t.arrivals[i] < t.issued && t.arrivals[i] !in t.delayed)
    && (forall i, j :: 0 <= i < j < |t.arrivals| ==> t.arrivals[i] < t.arrivals[j])
    && (forall id :: id in t.delayed ==> id < t.issued)
  }

  lemma {:induction false} RunKeepsArrivals(c: Config, t: Trace, es: seq<Event>)
    requires Runs(c, t, es) && ArrivalsRight(t)
    ensures ArrivalsRight(After(c, t, es))
    decreases |es|
  {
    if es != [] {
      RunKeepsArrivals(c, Step(c, t, es[0]), es[1..]);
    }
  }

  // ---- the queue's own receive is a run

  function Requeues(batch: seq<Message>): seq<Event> {
    seq(|batch|, i requires 0 <= i < |batch| => Requeue(batch[i]))
  }

  lemma {:induction false} RunsAppend(c: Config, t: Trace, es: seq<Event>, fs: seq<Event>)
    requires Runs(c, t, es) && Runs(c, After(c, t, es), fs)
    ensures Runs(c, t, es + fs) && After(c, t, es + fs) == After(c, After(c, t, es), fs)
    decreases |es|
  {
    if es == [] {
      assert es + fs == fs;
    } else {
      RunsAppend(c, Step(c, t, es[0]), es[1..], fs);
      assert (es + fs)[1..] == es[1..] + fs;
    }
  }

  lemma {:induction false} RequeuesRun(c: Config, t: Trace, batch: seq<Message>)
    requires forall i :: 0 <= i < |batch| ==> Expired(t.q, batch[i], t.clock)
    requires forall i, j :: 0 <= i < j < |batch| ==> batch[i] != batch[j]
    ensures Runs(c, t, Requeues(batch)) && After(c, t, Requeues(batch)) == t.(q := AllRequeued(t.q, batch))
    decreases |batch|
  {
    if batch == [] {
      assert Requeues(batch) == [];
    } else {
      var front := ButLast(batch);
      RequeuesRun(c, t, front);
      AllRequeuedAt(t.q, front);
      var mid := After(c, t, Requeues(front));
      assert Runs(c, mid, [Requeue(Last(batch))]) by {
        assert Runs(c, Step(c, mid, Requeue(Last(batch))), []);
      }
      RunsAppend(c, t, Requeues(front), [Requeue(Last(batch))]);
      assert Requeues(batch) == Requeues(front) + [Requeue(Last(batch))];
    }
  }

  lemma {:induction false} DeliveriesRun(c: Config, t: Trace, n: int) returns (es: seq<Event>)
    ensures Runs(c, t, es)
    ensures var (q, out) := Delivered(t.q, n, c.maxReceiveCount, t.clock + c.visibilityTimeout);
            var t' := After(c, t, es);
            && t'.q == q && t'.log == t.log + out
            && t' == t.(q := t'.q, log := t'.log, due := t'.due)
    decreases |t.q.ready|
  {
    if n <= 0 || t.q.ready == [] {
      es := [];
    } else {
      var t1 := Step(c, t, Take);
      var buried := OverLimit(t.q, c.maxReceiveCount);
      var rest := DeliveriesRun(c, t1, if buried then n else n - 1);
      es := [Take] + rest;
      assert es[1..] == rest;
      if !buried {
        var out := Delivered(t1.q, n - 1, c.maxReceiveCount, t.clock + c.visibilityTimeout).1;
        assert t1.log + out == t.log + ([Redelivery(Last(t.q.ready))] + out);
      }
    }
  }

  /** What the other methods of RQQueue promise is what one step each does. */
  lemma CallsAreSteps(c: Config, t: Trace, kind: string, job: Option<string>, payload: string, delay: int, m: Message, seconds: int)
    ensures var sent := Message(t.issued, kind, job, payload, 0);
            Step(c, t, Enqueue(kind, job, payload, delay)).q ==
              if delay == 0 then State([sent] + t.q.ready, t.q.inflight, t.q.dead)
              else State(t.q.ready, t.q.inflight[sent := t.clock + delay], t.q.dead)
    ensures Step(c, t, Ack(m)).q == State(t.q.ready, t.q.inflight - {m}, t.q.dead)
    ensures Step(c, t, Extend(m, seconds)).q ==
              if m in t.q.inflight then State(t.q.ready, t.q.inflight[m := t.clock + seconds], t.q.dead) else t.q
    ensures Step(c, t, Enqueue(kind, job, payload, delay)).issued == t.issued + 1
    ensures m in t.q.inflight ==> m.id in Step(c, t, Ack(m)).acked
  {
  }

  /** What RQQueue.Receive promises is what one run does, so every lemma about runs is
      about it. */
  lemma ReceiveIsARun(c: Config, t: Trace, n: int, batch: seq<Message>) returns (es: seq<Event>)
    requires ExpiredBatch(t.q, t.clock, batch)
    ensures Runs(c, t, es)
    ensures var (q, out) := Delivered(AllRequeued(t.q, batch), n, c.maxReceiveCount, t.clock + c.visibilityTimeout);
            var t' := After(c, t, es);
            && t'.q == q && t'.log == t.log + out
            && t' == t.(q := t'.q, log := t'.log, due := t'.due)
  {
    RequeuesRun(c, t, batch);
    var mid := t.(q := AllRequeued(t.q, batch));
    var takes := DeliveriesRun(c, mid, n);
    RunsAppend(c, t, Requeues(batch), takes);
    es := Requeues(batch) + takes;
  }

  /** Receiving never hands out more than was asked for, and what it leaves waiting when
      it hands out less is nothing. */
  lemma {:induction false} DeliversAsAsked(q: State, n: int, limit: int, deadline: int)
    ensures var (q', out) := Delivered(q, n, limit, deadline);
            && |out| <= (if n > 0 then n else 0)
            && (|out| < n ==> q'.ready == [])
            && (forall k :: 0 <= k < |out| ==> out[k].count <= limit && out[k] in q'.inflight)
    decreases |q.ready|
  {
    if n > 0 && q.ready != [] {
      var rest := Taken(q, limit, deadline);
      if OverLimit(q, limit) {
        DeliversAsAsked(rest, n, limit, deadline);
      } else {
        DeliversAsAsked(rest, n - 1, limit, deadline);
        LeasedStays(rest, n - 1, limit, deadline, Redelivery(Last(q.ready)));
      }
    }
  }

  lemma {:induction false} LeasedStays(q: State, n: int, limit: int, deadline: int, m: Message)
    requires m in q.inflight
    ensures m in Delivered(q, n, limit, deadline).0.inflight
    decreases |q.ready|
  {
    if n > 0 && q.ready != [] {
      LeasedStays(Taken(q, limit, deadline), if OverLimit(q, limit) then n else n - 1, limit, deadline, m);
    }
  }
}
