/**
 The Redis-backed queue (edlo/queue/rq_queue.py): a list of waiting messages, a
 sorted set of leased messages scored by their visibility deadline, and a
 dead-letter list.

 A raw handle is the JSON text of the message, receive count included, so a handle
 is modelled by the message value itself. `ready[0]` is the left end of the list,
 where LPUSH adds; the right end is where RPUSH puts a message back and RPOP takes
 one. The `uuid4` of a new message is a counter.
 */
module Queue {
  import opened Wrappers

  datatype Message = Message(id: nat, kind: string, job: Option<string>, payload: string, count: nat)

  datatype State = State(ready: seq<Message>, inflight: map<Message, int>, dead: seq<Message>)

  const EMPTY := State([], map[], [])

  function Last<T>(s: seq<T>): T requires |s| > 0 { s[|s| - 1] }

  function ButLast<T>(s: seq<T>): seq<T> requires |s| > 0 { s[..|s| - 1] }

  // ---- one message moved

  function Redelivery(m: Message): Message { m.(count := m.count + 1) }

  function Sent(q: State, m: Message): State { q.(ready := [m] + q.ready) }

  function Scheduled(q: State, m: Message, deadline: int): State { q.(inflight := q.inflight[m := deadline]) }

  /** What ZRANGEBYSCORE 0 now selects. */
  predicate Expired(q: State, m: Message, now: int) { m in q.inflight && 0 <= q.inflight[m] <= now }

  function Requeued(q: State, m: Message): State {
    if m in q.inflight then State(q.ready + [m], q.inflight - {m}, q.dead) else q
  }

  predicate OverLimit(q: State, limit: int) requires |q.ready| > 0 { Redelivery(Last(q.ready)).count > limit }

  /** Take the message at the front: lease it, or bury it once it was delivered too often. */
  function Taken(q: State, limit: int, deadline: int): State
    requires |q.ready| > 0
  {
    var m := Redelivery(Last(q.ready));
    if m.count > limit then State(ButLast(q.ready), q.inflight, [m] + q.dead)
    else State(ButLast(q.ready), q.inflight[m := deadline], q.dead)
  }

  function Acked(q: State, m: Message): State { q.(inflight := q.inflight - {m}) }

  function Extended(q: State, m: Message, deadline: int): State {
    if m in q.inflight then q.(inflight := q.inflight[m := deadline]) else q
  }

  // ---- places

  datatype Slot = InReady(i: nat) | InFlight(m: Message) | InDead(i: nat)

  predicate Occupied(q: State, s: Slot) {
    match s
    case InReady(i) => i < |q.ready|
    case InFlight(m) => m in q.inflight
    case InDead(i) => i < |q.dead|
  }

  function At(q: State, s: Slot): Message
    requires Occupied(q, s)
  {
    match s
    case InReady(i) => q.ready[i]
    case InFlight(m) => m
    case InDead(i) => q.dead[i]
  }

  /** No message is in two places at once, under whatever receive count. */
  ghost predicate Apart(q: State) {
    forall s, s' :: Occupied(q, s) && Occupied(q, s') && At(q, s).id == At(q, s').id ==> s == s'
  }

  /** Where a message in a place after a send or a requeue or a take was before it. */
  function BeforeSent(s: Slot): Slot { if s.InReady? && s.i > 0 then InReady(s.i - 1) else s }

  function BeforeRequeued(q: State, m: Message, s: Slot): Slot {
    if m in q.inflight && s == InReady(|q.ready|) then InFlight(m) else s
  }

  function BeforeTaken(q: State, limit: int, s: Slot): Slot
    requires |q.ready| > 0
  {
    if OverLimit(q, limit) then
      if s == InDead(0) then InReady(|q.ready| - 1) else if s.InDead? then InDead(s.i - 1) else s
    else if s == InFlight(Redelivery(Last(q.ready))) then InReady(|q.ready| - 1) else s
  }

  /** Renaming places keeps messages apart. */
  lemma ApartByRenaming(q: State, q': State, before: Slot -> Slot)
    requires Apart(q)
    requires forall s :: Occupied(q', s) ==> Occupied(q, before(s)) && At(q, before(s)).id == At(q', s).id
    requires forall s, s' :: Occupied(q', s) && Occupied(q', s') && before(s) == before(s') ==> s == s'
    ensures Apart(q')
  {
  }

  lemma SentApart(q: State, m: Message)
    requires Apart(q)
    requires forall s :: Occupied(q, s) ==> At(q, s).id != m.id
    ensures Apart(Sent(q, m))
    ensures forall s :: Occupied(Sent(q, m), s) ==>
      s == InReady(0) || (Occupied(q, BeforeSent(s)) && At(q, BeforeSent(s)) == At(Sent(q, m), s))
  {
    var q' := Sent(q, m);
    forall s, s' | Occupied(q', s) && Occupied(q', s') && At(q', s).id == At(q', s').id
      ensures s == s'
    {
      assert s != InReady(0) ==> At(q, BeforeSent(s)) == At(q', s);
      assert s' != InReady(0) ==> At(q, BeforeSent(s')) == At(q', s');
    }
  }

  lemma ScheduledApart(q: State, m: Message, deadline: int)
    requires Apart(q)
    requires forall s :: Occupied(q, s) ==> At(q, s).id != m.id
    ensures Apart(Scheduled(q, m, deadline))
    ensures forall s :: Occupied(Scheduled(q, m, deadline), s) ==>
      s == InFlight(m) || (Occupied(q, s) && At(q, s) == At(Scheduled(q, m, deadline), s))
  {
    var q' := Scheduled(q, m, deadline);
    forall s, s' | Occupied(q', s) && Occupied(q', s') && At(q', s).id == At(q', s').id
      ensures s == s'
    {
      assert s != InFlight(m) ==> At(q, s) == At(q', s);
      assert s' != InFlight(m) ==> At(q, s') == At(q', s');
    }
  }

  lemma RequeuedApart(q: State, m: Message)
    requires Apart(q)
    ensures Apart(Requeued(q, m))
    ensures forall s :: Occupied(Requeued(q, m), s) ==>
      Occupied(q, BeforeRequeued(q, m, s)) && At(q, BeforeRequeued(q, m, s)) == At(Requeued(q, m), s)
  {
    ApartByRenaming(q, Requeued(q, m), s => BeforeRequeued(q, m, s));
  }

  lemma TakenApart(q: State, limit: int, deadline: int)
    requires Apart(q) && |q.ready| > 0
    ensures var q' := Taken(q, limit, deadline);
            && Apart(q')
            && forall s :: Occupied(q', s) ==>
                 var b := BeforeTaken(q, limit, s);
                 && Occupied(q, b)
                 && At(q', s) == if b == InReady(|q.ready| - 1) then Redelivery(At(q, b)) else At(q, b)
  {
    var q' := Taken(q, limit, deadline);
    forall s | Occupied(q', s) ensures Occupied(q, BeforeTaken(q, limit, s)) {
    }
    ApartByRenaming(q, q', s => BeforeTaken(q, limit, s));
  }

  lemma AckedApart(q: State, m: Message)
    requires Apart(q)
    ensures Apart(Acked(q, m))
    ensures forall s :: Occupied(Acked(q, m), s) <==> Occupied(q, s) && s != InFlight(m)
    ensures forall s :: Occupied(Acked(q, m), s) && m in q.inflight ==> At(q, s).id != m.id
  {
    assert m in q.inflight ==> Occupied(q, InFlight(m)) && At(q, InFlight(m)).id == m.id;
    ApartByRenaming(q, Acked(q, m), s => s);
  }

  lemma ExtendedApart(q: State, m: Message, deadline: int)
    requires Apart(q)
    ensures Apart(Extended(q, m, deadline))
    ensures forall s :: Occupied(Extended(q, m, deadline), s) <==> Occupied(q, s)
  {
    ApartByRenaming(q, Extended(q, m, deadline), s => s);
  }

  // ---- whole operations

  function AllRequeued(q: State, batch: seq<Message>): State
    decreases |batch|
  {
    if batch == [] then q else Requeued(AllRequeued(q, ButLast(batch)), Last(batch))
  }

  /** The expired handles, each once, earliest deadline first; ties in any order. */
  ghost predicate ExpiredBatch(q: State, now: int, batch: seq<Message>) {
    && (forall i :: 0 <= i < |batch| ==> Expired(q, batch[i], now))
    && (forall m :: m in q.inflight && Expired(q, m, now) ==> m in batch)
    && (forall i, j :: 0 <= i < j < |batch| ==> batch[i] != batch[j] && q.inflight[batch[i]] <= q.inflight[batch[j]])
  }

  /** Deliver up to n messages from the front. */
  function Delivered(q: State, n: int, limit: int, deadline: int): (State, seq<Message>)
    decreases |q.ready|
  {
    if n <= 0 || q.ready == [] then (q, [])
    else
      var m := Redelivery(Last(q.ready));
      var rest := Taken(q, limit, deadline);
      if OverLimit(q, limit) then Delivered(rest, n, limit, deadline)
      else
        var (q', out) := Delivered(rest, n - 1, limit, deadline);
        (q', [m] + out)
  }

  /** Requeueing a batch is one list append and one set removal. */
  lemma {:induction false} AllRequeuedAt(q: State, batch: seq<Message>)
    requires forall i :: 0 <= i < |batch| ==> batch[i] in q.inflight
    requires forall i, j :: 0 <= i < j < |batch| ==> batch[i] != batch[j]
    ensures var r := AllRequeued(q, batch);
            && r.ready == q.ready + batch && r.dead == q.dead
            && r.inflight == map m | m in q.inflight && m !in batch :: q.inflight[m]
    decreases |batch|
  {
    if batch != [] {
      var front := ButLast(batch);
      AllRequeuedAt(q, front);
      assert batch == front + [Last(batch)];
      assert Last(batch) !in front;
      assert q.ready + front + [Last(batch)] == q.ready + batch;
    }
  }

  class RQQueue {
    var ready: seq<Message>
    var inflight: map<Message, int>
    var dead: seq<Message>
    var issued: nat
    const visibilityTimeout: int
    const maxReceiveCount: int

    ghost function Contents(): State
      reads this
    {
      State(ready, inflight, dead)
    }

    constructor (visibilityTimeout: int := 300, maxReceiveCount: int := 3)
      ensures Contents() == EMPTY && issued == 0
      ensures this.visibilityTimeout == visibilityTimeout && this.maxReceiveCount == maxReceiveCount
    {
      this.visibilityTimeout := visibilityTimeout;
      this.maxReceiveCount := maxReceiveCount;
      ready, inflight, dead, issued := [], map[], [], 0;
    }

    method Enqueue(kind: string, job: Option<string>, payload: string, delaySeconds: int, now: int) returns (id: nat)
      modifies this
      ensures id == old(issued) && issued == old(issued) + 1
      ensures var m := Message(id, kind, job, payload, 0);
              Contents() == if delaySeconds != 0 then Scheduled(old(Contents()), m, now + delaySeconds)
                            else Sent(old(Contents()), m)
      ensures dead == old(dead)
      ensures delaySeconds == 0 ==> ready == [Message(id, kind, job, payload, 0)] + old(ready) && inflight == old(inflight)
      ensures delaySeconds != 0 ==> ready == old(ready) && inflight == old(inflight)[Message(id, kind, job, payload, 0) := now + delaySeconds]
    {
      id := issued;
      issued := issued + 1;
      var msg := Message(id, kind, job, payload, 0);
      if delaySeconds != 0 {
        inflight := inflight[msg := now + delaySeconds];
      } else {
        ready := [msg] + ready;
      }
    }

    method RangeByScore(now: int) returns (raws: seq<Message>)
      ensures ExpiredBatch(Contents(), now, raws)
    {
      var rest := set m | m in inflight && 0 <= inflight[m] <= now;
      raws := [];
      while rest != {}
        invariant forall m :: m in rest ==> Expired(Contents(), m, now)
        invariant forall i :: 0 <= i < |raws| ==> Expired(Contents(), raws[i], now) && raws[i] !in rest
        invariant forall m :: m in inflight && Expired(Contents(), m, now) ==> m in rest || m in raws
        invariant forall i, m :: 0 <= i < |raws| && m in rest ==> inflight[raws[i]] <= inflight[m]
        invariant forall i, j :: 0 <= i < j < |raws| ==> raws[i] != raws[j] && inflight[raws[i]] <= inflight[raws[j]]
        decreases rest
      {
        var first := LowestScore(rest);
        raws := raws + [first];
        rest := rest - {first};
      }
    }

    method LowestScore(candidates: set<Message>) returns (first: Message)
      requires candidates != {} && candidates <= inflight.Keys
      ensures first in candidates
      ensures forall m :: m in candidates ==> inflight[first] <= inflight[m]
    {
      first :| first in candidates;
      var rest := candidates - {first};
      while rest != {}
        invariant first in candidates && rest <= candidates
        invariant forall m :: m in candidates - rest ==> inflight[first] <= inflight[m]
        decreases rest
      {
        var m :| m in rest;
        if inflight[m] < inflight[first] {
          first := m;
        }
        rest := rest - {m};
      }
    }

    method RequeueExpired(now: int) returns (ghost batch: seq<Message>)
      modifies this`ready, this`inflight
      ensures ExpiredBatch(old(Contents()), now, batch)
      ensures Contents() == AllRequeued(old(Contents()), batch)
      ensures forall m :: m in batch <==> m in old(inflight) && 0 <= old(inflight)[m] <= now
      ensures ready == old(ready) + batch && inflight == old(inflight) - (set m | m in batch)
    {
      var raws := RangeByScore(now);
      batch := raws;
      var i := 0;
      while i < |raws|
        invariant i <= |raws|
        invariant dead == old(dead)
        invariant Contents() == AllRequeued(old(Contents()), raws[..i])
      {
        assert raws[..i + 1] == raws[..i] + [raws[i]];
        if raws[i] in inflight {
          inflight := inflight - {raws[i]};
          ready := ready + [raws[i]];
        }
        i := i + 1;
      }
      assert raws[..i] == raws;
      AllRequeuedAt(old(Contents()), batch);
      assert inflight == old(inflight) - (set m | m in batch);
    }

    method Receive(maxMessages: int, now: int) returns (out: seq<Message>, ghost batch: seq<Message>)
      modifies this`ready, this`inflight, this`dead
      ensures ExpiredBatch(old(Contents()), now, batch)
      ensures (Contents(), out) ==
              Delivered(AllRequeued(old(Contents()), batch), maxMessages, maxReceiveCount, now + visibilityTimeout)
    {
      batch := RequeueExpired(now);
      ghost var start := Contents();
      ghost var deadline := now + visibilityTimeout;
      out := [];
      ghost var (_, all) := Delivered(start, maxMessages, maxReceiveCount, deadline);
      assert out + all == all;
      while |out| < maxMessages
        invariant var (q, rest) := Delivered(Contents(), maxMessages - |out|, maxReceiveCount, deadline);
                  (q, out + rest) == Delivered(start, maxMessages, maxReceiveCount, deadline)
        decreases |ready|
      {
        if ready == [] {
          break;
        }
        var msg := Redelivery(ready[|ready| - 1]);
        ready := ready[..|ready| - 1];
        if msg.count > maxReceiveCount {
          dead := [msg] + dead;
          continue;
        }
        inflight := inflight[msg := now + visibilityTimeout];
        ghost var rest := Delivered(Contents(), maxMessages - |out| - 1, maxReceiveCount, deadline).1;
        assert out + ([msg] + rest) == (out + [msg]) + rest;
        out := out + [msg];
      }
      assert out + [] == out;
    }

    method Ack(m: Message)
      modifies this`inflight
      ensures Contents() == Acked(old(Contents()), m)
      ensures inflight == old(inflight) - {m}
    {
      inflight := inflight - {m};
    }

    method ExtendLease(m: Message, seconds: int, now: int)
      modifies this`inflight
      ensures Contents() == Extended(old(Contents()), m, now + seconds)
      ensures inflight == if m in old(inflight) then old(inflight)[m := now + seconds] else old(inflight)
    {
      if m in inflight {
        inflight := inflight[m := now + seconds];
      }
    }
  }
}
