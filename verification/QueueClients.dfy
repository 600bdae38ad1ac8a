/**
 The queue one Redis command at a time (edlo/queue/rq_queue.py).

 RQQueue's methods are not transactions: `_requeue_expired` scans, removes and pushes
 back in separate commands, and `receive` pops in one command and leases in another.
 Here any number of clients interleave between commands. Between two commands a
 message can be in a client's hand only.
 */
module QueueClients {
  import opened Wrappers
  import opened Queue

  type Client = nat

  datatype Hand =
    | Idle
    | Sweeping(batch: seq<Message>)
    | Returning(m: Message, batch: seq<Message>)
    | Popping
    | Popped(m: Message)

  datatype Config = Config(visibilityTimeout: int, maxReceiveCount: int)

  datatype World = World(
    q: State, clock: int, issued: nat, acked: set<nat>, hands: map<Client, Hand>, due: map<Message, int>)

  datatype Command =
    | Send(kind: string, job: Option<string>, payload: string, delaySeconds: int)
    | Scan(c: Client, batch: seq<Message>)
    | TryRemove(c: Client)
    | PushBack(c: Client)
    | EndSweep(c: Client)
    | Pop(c: Client)
    | Settle(c: Client)
    | EndReceive(c: Client)
    | Ack(h: Message)
    | Extend(h: Message, seconds: int)
    | Tick(elapsed: nat)
    | Crash(c: Client)

  function Start(clock: int): World { World(EMPTY, clock, 0, {}, map[], map[]) }

  function HandOf(hands: map<Client, Hand>, c: Client): Hand { if c in hands then hands[c] else Idle }

  predicate Holds(h: Hand) { h.Returning? || h.Popped? }

  function Pending(h: Hand): seq<Message> {
    match h
    case Sweeping(batch) => batch
    case Returning(_, batch) => batch
    case _ => []
  }

  ghost predicate Enabled(w: World, e: Command) {
    match e
    case Scan(c, batch) => HandOf(w.hands, c).Idle? && ExpiredBatch(w.q, w.clock, batch)
    case TryRemove(c) => HandOf(w.hands, c).Sweeping? && HandOf(w.hands, c).batch != []
    case PushBack(c) => HandOf(w.hands, c).Returning?
    case EndSweep(c) => HandOf(w.hands, c).Sweeping? && HandOf(w.hands, c).batch == []
    case Pop(c) => HandOf(w.hands, c).Popping? && w.q.ready != []
    case Settle(c) => HandOf(w.hands, c).Popped?
    case EndReceive(c) => HandOf(w.hands, c).Popping?
    case _ => true
  }

  ghost function Step(f: Config, w: World, e: Command): World
    requires Enabled(w, e)
  {
    match e
    case Send(kind, job, payload, delay) =>
      var m := Message(w.issued, kind, job, payload, 0);
      if delay != 0
      then w.(q := Scheduled(w.q, m, w.clock + delay), issued := w.issued + 1, due := w.due[m := w.clock + delay])
      else w.(q := Sent(w.q, m), issued := w.issued + 1)
    case Scan(c, batch) => w.(hands := w.hands[c := Sweeping(batch)])
    case TryRemove(c) =>
      var batch := HandOf(w.hands, c).batch;
      var m := batch[0];
      if m in w.q.inflight
      then w.(q := w.q.(inflight := w.q.inflight - {m}), hands := w.hands[c := Returning(m, batch[1..])])
      else w.(hands := w.hands[c := Sweeping(batch[1..])])
    case PushBack(c) =>
      var h := HandOf(w.hands, c);
      w.(q := w.q.(ready := w.q.ready + [h.m]), hands := w.hands[c := Sweeping(h.batch)])
    case EndSweep(c) => w.(hands := w.hands[c := Popping])
    case Pop(c) => w.(q := w.q.(ready := ButLast(w.q.ready)), hands := w.hands[c := Popped(Last(w.q.ready))])
    case Settle(c) =>
      var m := Redelivery(HandOf(w.hands, c).m);
      var w' := w.(hands := w.hands[c := Popping]);
      if m.count > f.maxReceiveCount then w'.(q := w.q.(dead := [m] + w.q.dead))
      else w'.(q := w.q.(inflight := w.q.inflight[m := w.clock + f.visibilityTimeout]),
               due := w.due[m := w.clock + f.visibilityTimeout])
    case EndReceive(c) => w.(hands := w.hands[c := Idle])
    case Ack(h) => w.(q := Acked(w.q, h), acked := if h in w.q.inflight then w.acked + {h.id} else w.acked)
    case Extend(h, seconds) =>
      w.(q := Extended(w.q, h, w.clock + seconds),
         due := if h in w.q.inflight then w.due[h := w.clock + seconds] else w.due)
    case Tick(elapsed) => w.(clock := w.clock + elapsed)
    case Crash(c) => w.(hands := w.hands[c := Idle])
  }

  ghost predicate Runs(f: Config, w: World, es: seq<Command>)
    decreases |es|
  {
    es == [] || (Enabled(w, es[0]) && Runs(f, Step(f, w, es[0]), es[1..]))
  }

  ghost function After(f: Config, w: World, es: seq<Command>): World
    requires Runs(f, w, es)
    decreases |es|
  {
    if es == [] then w else After(f, Step(f, w, es[0]), es[1..])
  }

  /** No client dies with a message in its hand. */
  ghost predicate NoneDropped(f: Config, w: World, es: seq<Command>)
    requires Runs(f, w, es)
    decreases |es|
  {
    es == [] || ((es[0].Crash? ==> !Holds(HandOf(w.hands, es[0].c))) && NoneDropped(f, Step(f, w, es[0]), es[1..]))
  }

  // ---- places

  datatype Place = Stored(s: Slot) | InHand(c: Client) | Gone

  predicate Here(w: World, id: nat, p: Place) {
    match p
    case Stored(s) => Occupied(w.q, s) && At(w.q, s).id == id
    case InHand(c) => Holds(HandOf(w.hands, c)) && HandOf(w.hands, c).m.id == id
    case Gone => id in w.acked
  }

  ghost predicate NowhereTwice(w: World) {
    forall id: nat, p, p' :: Here(w, id, p) && Here(w, id, p') ==> p == p'
  }

  ghost predicate Somewhere(w: World, id: nat) {
    exists p :: Here(w, id, p)
  }

  ghost predicate NoneLost(w: World) {
    forall id: nat :: id < w.issued ==> Somewhere(w, id)
  }

  ghost predicate NoneForged(w: World) {
    forall id: nat, p :: Here(w, id, p) ==> id < w.issued
  }

  /** Where the content of place p was before the step, and where the content of p goes. */
  ghost function Before(f: Config, w: World, e: Command, p: Place): Place
    requires Enabled(w, e)
  {
    match e
    case Send(_, _, _, delay) => if delay == 0 && p.Stored? then Stored(BeforeSent(p.s)) else p
    case TryRemove(c) => if p == InHand(c) then Stored(InFlight(HandOf(w.hands, c).batch[0])) else p
    case PushBack(c) => if p == Stored(InReady(|w.q.ready|)) then InHand(c) else p
    case Pop(c) => if p == InHand(c) then Stored(InReady(|w.q.ready| - 1)) else p
    case Settle(c) =>
      var m := Redelivery(HandOf(w.hands, c).m);
      if m.count > f.maxReceiveCount
      then if p == Stored(InDead(0)) then InHand(c) else if p.Stored? && p.s.InDead? then Stored(InDead(p.s.i - 1)) else p
      else if p == Stored(InFlight(m)) then InHand(c) else p
    case Ack(h) => if p == Gone then Gone else p
    case _ => p
  }

  ghost function Next(f: Config, w: World, e: Command, p: Place): Place
    requires Enabled(w, e)
  {
    match e
    case Send(_, _, _, delay) => if delay == 0 && p.Stored? && p.s.InReady? then Stored(InReady(p.s.i + 1)) else p
    case TryRemove(c) => if p == Stored(InFlight(HandOf(w.hands, c).batch[0])) then InHand(c) else p
    case PushBack(c) => if p == InHand(c) then Stored(InReady(|w.q.ready|)) else p
    case Pop(c) => if p == Stored(InReady(|w.q.ready| - 1)) then InHand(c) else p
    case Settle(c) =>
      var m := Redelivery(HandOf(w.hands, c).m);
      if m.count > f.maxReceiveCount
      then if p == InHand(c) then Stored(InDead(0)) else if p.Stored? && p.s.InDead? then Stored(InDead(p.s.i + 1)) else p
      else if p == InHand(c) then Stored(InFlight(m)) else p
    case Ack(h) => if p == Stored(InFlight(h)) then Gone else p
    case _ => p
  }

  lemma NextKeepsHere(f: Config, w: World, e: Command, id: nat, p: Place)
    requires Enabled(w, e) && Here(w, id, p)
    requires e.Crash? ==> !Holds(HandOf(w.hands, e.c))
    ensures Here(Step(f, w, e), id, Next(f, w, e, p))
  {
  }

  lemma BeforeKeepsHere(f: Config, w: World, e: Command, id: nat, p: Place)
    requires Enabled(w, e) && Here(Step(f, w, e), id, p)
    ensures (e.Send? && id == w.issued) || Here(w, id, Before(f, w, e, p))
      || (e.Ack? && p == Gone && Here(w, id, Stored(InFlight(e.h))))
  {
  }

  // ---- conservation

  lemma StepNowhereTwice(f: Config, w: World, e: Command)
    requires Enabled(w, e) && NowhereTwice(w) && NoneForged(w)
    ensures NowhereTwice(Step(f, w, e)) && NoneForged(Step(f, w, e))
  {
    var w' := Step(f, w, e);
    forall id: nat, p | Here(w', id, p) ensures id < w'.issued {
      BeforeKeepsHere(f, w, e, id, p);
    }
    forall id: nat, p, p' | Here(w', id, p) && Here(w', id, p') ensures p == p' {
      BeforeKeepsHere(f, w, e, id, p);
      BeforeKeepsHere(f, w, e, id, p');
      BeforeInjective(f, w, e, id, p, p');
    }
  }

  lemma BeforeInjective(f: Config, w: World, e: Command, id: nat, p: Place, p': Place)
    requires Enabled(w, e) && NowhereTwice(w) && NoneForged(w)
    requires var w' := Step(f, w, e); Here(w', id, p) && Here(w', id, p')
    requires (e.Send? && id == w.issued) || Here(w, id, Before(f, w, e, p))
      || (e.Ack? && p == Gone && Here(w, id, Stored(InFlight(e.h))))
    requires (e.Send? && id == w.issued) || Here(w, id, Before(f, w, e, p'))
      || (e.Ack? && p' == Gone && Here(w, id, Stored(InFlight(e.h))))
    ensures p == p'
  {
    if e.Send? && id == w.issued {
      assert !Here(w, id, Before(f, w, e, p)) && !Here(w, id, Before(f, w, e, p'));
    } else if !e.Ack? {
      hide Step, Here;
      assert Before(f, w, e, p) == Before(f, w, e, p');
      OneBefore(f, w, e, id, p, p');
    }
  }

  /** Two places have the same content before the step only if they are one. */
  lemma OneBefore(f: Config, w: World, e: Command, id: nat, p: Place, p': Place)
    requires Enabled(w, e) && !e.Ack? && Before(f, w, e, p) == Before(f, w, e, p')
    requires Here(Step(f, w, e), id, p) && Here(Step(f, w, e), id, p') && !(e.Send? && id == w.issued)
    ensures p == p'
  {
  }

  lemma StepLosesNone(f: Config, w: World, e: Command)
    requires Enabled(w, e) && NoneLost(w)
    requires e.Crash? ==> !Holds(HandOf(w.hands, e.c))
    ensures NoneLost(Step(f, w, e))
  {
    var w' := Step(f, w, e);
    forall id: nat | id < w'.issued ensures Somewhere(w', id) {
      if id < w.issued {
        assert Somewhere(w, id);
        var p :| Here(w, id, p);
        NextKeepsHere(f, w, e, id, p);
      } else {
        var m := Message(w.issued, e.kind, e.job, e.payload, 0);
        assert Here(w', id, Stored(if e.delaySeconds != 0 then InFlight(m) else InReady(0)));
      }
    }
  }

  lemma {:induction false} RunKeepsPlaces(f: Config, w: World, es: seq<Command>)
    requires Runs(f, w, es) && NowhereTwice(w) && NoneForged(w)
    ensures var w' := After(f, w, es); NowhereTwice(w') && NoneForged(w')
    ensures NoneLost(w) && NoneDropped(f, w, es) ==> NoneLost(After(f, w, es))
    decreases |es|
  {
    if es != [] {
      StepNowhereTwice(f, w, es[0]);
      if NoneLost(w) && NoneDropped(f, w, es) {
        StepLosesNone(f, w, es[0]);
      }
      RunKeepsPlaces(f, Step(f, w, es[0]), es[1..]);
    }
  }

  /** However the clients' commands interleave, every message ever sent is in exactly one
      of: the ready list, the leased set, the dead letters, one client's hand, acked.
      Duplication is impossible in every run; loss, in every run in which no client dies
      with a message in its hand. */
  lemma ExactlyOnePlace(f: Config, clock: int, es: seq<Command>, id: nat)
    requires Runs(f, Start(clock), es)
    ensures var w := After(f, Start(clock), es);
            && (forall p, p' :: Here(w, id, p) && Here(w, id, p') ==> p == p')
            && (Somewhere(w, id) ==> id < w.issued)
            && (NoneDropped(f, Start(clock), es) ==> (Somewhere(w, id) <==> id < w.issued))
  {
    RunKeepsPlaces(f, Start(clock), es);
    var w := After(f, Start(clock), es);
    if NoneDropped(f, Start(clock), es) && id < w.issued {
      assert NoneLost(w);
    }
  }

  /** A client's death loses a message exactly when it had one in its hand. */
  lemma CrashLosesExactlyWhatIsHeld(f: Config, w: World, c: Client)
    requires NowhereTwice(w) && NoneForged(w) && NoneLost(w)
    ensures NoneLost(Step(f, w, Crash(c))) <==> !Holds(HandOf(w.hands, c))
  {
    if Holds(HandOf(w.hands, c)) {
      var id := HandOf(w.hands, c).m.id;
      var w' := Step(f, w, Crash(c));
      assert Here(w, id, InHand(c));
      forall p ensures !Here(w', id, p) {
        if Here(w', id, p) {
          assert Here(w, id, p);
        }
      }
      assert !Somewhere(w', id);
    } else {
      StepLosesNone(f, w, Crash(c));
    }
  }

  // ---- deadlines between commands

  function MessageAt(w: World, id: nat, p: Place): Message
    requires Here(w, id, p) && !p.Gone?
  {
    match p
    case Stored(s) => At(w.q, s)
    case InHand(c) => HandOf(w.hands, c).m
  }

  ghost predicate NoNewer(w: World, h: Message) {
    forall p :: Here(w, h.id, p) && !p.Gone? ==> h.count <= MessageAt(w, h.id, p).count
  }

  /** Handles on record are no newer than the message itself. */
  ghost predicate HandlesPast(w: World) {
    && (forall h :: h in w.due ==> h.id < w.issued)
    && (forall h :: h in w.due ==> NoNewer(w, h))
  }

  predicate Passed(w: World, m: Message) { m in w.due ==> w.due[m] <= w.clock }

  predicate PassedOr(w: World, m: Message, early: Option<Message>) { Passed(w, m) || early == Some(m) }

  /** Whatever waits, is held, or is about to be taken back is past its deadline, but for one
      handle, if any. */
  ghost predicate TimelyBut(w: World, early: Option<Message>) {
    && (forall m :: m in w.q.inflight ==> m in w.due && w.due[m] == w.q.inflight[m])
    && (forall i :: 0 <= i < |w.q.ready| ==> PassedOr(w, w.q.ready[i], early))
    && (forall c :: Holds(HandOf(w.hands, c)) ==> PassedOr(w, HandOf(w.hands, c).m, early))
    && (forall c, m :: m in Pending(HandOf(w.hands, c)) ==> m in w.due && PassedOr(w, m, early))
  }

  ghost predicate Timely(w: World) { TimelyBut(w, None) }

  /** Some client has scanned this handle as expired and has not tried it yet. */
  ghost predicate Swept(w: World, h: Message) {
    exists c :: h in Pending(HandOf(w.hands, c))
  }

  ghost predicate ExtendsSwept(w: World, e: Command) {
    e.Extend? && e.h in w.q.inflight && e.seconds > 0 && Swept(w, e.h)
  }

  ghost predicate NoSweptExtended(f: Config, w: World, es: seq<Command>)
    requires Runs(f, w, es)
    decreases |es|
  {
    es == [] || (!ExtendsSwept(w, es[0]) && NoSweptExtended(f, Step(f, w, es[0]), es[1..]))
  }

  lemma StepKeepsHandles(f: Config, w: World, e: Command)
    requires Enabled(w, e) && NowhereTwice(w) && NoneForged(w) && HandlesPast(w)
    ensures HandlesPast(Step(f, w, e))
  {
    var w' := Step(f, w, e);
    StepNowhereTwice(f, w, e);
    forall h | h in w'.due ensures h.id < w'.issued {
      if e.Settle? && h !in w.due {
        assert Here(w, h.id, InHand(e.c));
      } else if e.Extend? && h !in w.due {
        assert Here(w, h.id, Stored(InFlight(h)));
      }
    }
    forall h | h in w'.due ensures NoNewer(w', h) {
      if h in w.due {
        StillNoNewer(f, w, e, h);
      } else {
        assert Here(w', h.id, Stored(InFlight(h)));
      }
    }
  }

  lemma StillNoNewer(f: Config, w: World, e: Command, h: Message)
    requires Enabled(w, e) && h.id < w.issued && NoNewer(w, h)
    ensures NoNewer(Step(f, w, e), h)
  {
    var w' := Step(f, w, e);
    forall p | Here(w', h.id, p) && !p.Gone? ensures h.count <= MessageAt(w', h.id, p).count {
      BeforeKeepsHere(f, w, e, h.id, p);
      assert MessageAt(w, h.id, Before(f, w, e, p)).count <= MessageAt(w', h.id, p).count;
    }
  }

  lemma SettleKeepsTimely(f: Config, w: World, c: Client, early: Option<Message>)
    requires Enabled(w, Settle(c)) && NowhereTwice(w) && NoneForged(w) && HandlesPast(w) && TimelyBut(w, early)
    ensures TimelyBut(Step(f, w, Settle(c)), early)
  {
    var m := HandOf(w.hands, c).m;
    assert Here(w, m.id, InHand(c)) && MessageAt(w, m.id, InHand(c)) == m;
    var h := Redelivery(m);
    assert Here(w, h.id, InHand(c)) && MessageAt(w, h.id, InHand(c)).count < h.count;
    assert !NoNewer(w, h);
    var w' := Step(f, w, Settle(c));
    assert forall x :: x in w.due ==> x in w'.due && w'.due[x] == w.due[x];
    forall c', x | x in Pending(HandOf(w'.hands, c')) ensures x in w'.due && PassedOr(w', x, early) {
      assert x in Pending(HandOf(w.hands, c'));
    }
    forall i | 0 <= i < |w'.q.ready| ensures PassedOr(w', w'.q.ready[i], early) {
      assert PassedOr(w, w.q.ready[i], early);
      assert Here(w, w.q.ready[i].id, Stored(InReady(i)));
    }
    forall c' | Holds(HandOf(w'.hands, c')) ensures PassedOr(w', HandOf(w'.hands, c').m, early) {
      assert Here(w, HandOf(w.hands, c').m.id, InHand(c'));
    }
  }

  lemma ExtendKeepsTimely(f: Config, w: World, h: Message, seconds: int, early: Option<Message>)
    requires NowhereTwice(w) && TimelyBut(w, early) && !ExtendsSwept(w, Extend(h, seconds))
    ensures TimelyBut(Step(f, w, Extend(h, seconds)), early)
  {
    var w' := Step(f, w, Extend(h, seconds));
    if h in w.q.inflight {
      assert Here(w, h.id, Stored(InFlight(h)));
      forall i | 0 <= i < |w.q.ready| ensures PassedOr(w', w.q.ready[i], early) {
        assert Here(w, w.q.ready[i].id, Stored(InReady(i)));
      }
      forall c | Holds(HandOf(w.hands, c)) ensures PassedOr(w', HandOf(w.hands, c).m, early) {
        assert Here(w, HandOf(w.hands, c).m.id, InHand(c));
      }
      forall c, m | m in Pending(HandOf(w.hands, c)) ensures m in w'.due && PassedOr(w', m, early) {
        assert m == h ==> Swept(w, h);
      }
    }
  }

  lemma StepKeepsTimely(f: Config, w: World, e: Command, early: Option<Message>)
    requires Enabled(w, e) && NowhereTwice(w) && NoneForged(w) && HandlesPast(w) && TimelyBut(w, early)
    requires !ExtendsSwept(w, e)
    ensures TimelyBut(Step(f, w, e), early)
  {
    match e
    case Settle(c) => SettleKeepsTimely(f, w, c, early);
    case Extend(h, seconds) => ExtendKeepsTimely(f, w, h, seconds, early);
    case Send(_, _, _, _) => SendKeepsTimely(f, w, e, early);
    case TryRemove(c) => TryRemoveKeepsTimely(f, w, c, early);
    case PushBack(c) => HandsKeepTimely(f, w, e, c, early);
    case EndSweep(c) => HandsKeepTimely(f, w, e, c, early);
    case Pop(c) => HandsKeepTimely(f, w, e, c, early);
    case EndReceive(c) => HandsKeepTimely(f, w, e, c, early);
    case Crash(c) => HandsKeepTimely(f, w, e, c, early);
    case Scan(c, _) => HandsKeepTimely(f, w, e, c, early);
    case _ =>
  }

  lemma SendKeepsTimely(f: Config, w: World, e: Command, early: Option<Message>)
    requires e.Send? && NoneForged(w) && HandlesPast(w) && TimelyBut(w, early)
    ensures TimelyBut(Step(f, w, e), early)
  {
    var m := Message(w.issued, e.kind, e.job, e.payload, 0);
    forall i | 0 <= i < |w.q.ready| ensures w.q.ready[i].id != m.id {
      assert Here(w, w.q.ready[i].id, Stored(InReady(i)));
    }
    forall c | Holds(HandOf(w.hands, c)) ensures HandOf(w.hands, c).m.id != m.id {
      assert Here(w, HandOf(w.hands, c).m.id, InHand(c));
    }
  }

  lemma TryRemoveKeepsTimely(f: Config, w: World, c: Client, early: Option<Message>)
    requires Enabled(w, TryRemove(c)) && TimelyBut(w, early)
    ensures TimelyBut(Step(f, w, TryRemove(c)), early)
  {
    var w' := Step(f, w, TryRemove(c));
    assert HandOf(w.hands, c).batch[0] in Pending(HandOf(w.hands, c));
    forall c', m | m in Pending(HandOf(w'.hands, c')) ensures m in w'.due && PassedOr(w', m, early) {
      assert m in Pending(HandOf(w.hands, c'));
    }
    forall c' | Holds(HandOf(w'.hands, c')) ensures PassedOr(w', HandOf(w'.hands, c').m, early) {
      assert c' != c ==> HandOf(w'.hands, c') == HandOf(w.hands, c');
    }
  }

  lemma HandsKeepTimely(f: Config, w: World, e: Command, c: Client, early: Option<Message>)
    requires Enabled(w, e) && TimelyBut(w, early)
    requires e == PushBack(c) || e == EndSweep(c) || e == Pop(c) || e == EndReceive(c) || e == Crash(c) || (e.Scan? && e.c == c)
    ensures TimelyBut(Step(f, w, e), early)
  {
    var w' := Step(f, w, e);
    forall c', m | m in Pending(HandOf(w'.hands, c')) ensures m in w'.due && PassedOr(w', m, early) {
      assert m in Pending(HandOf(w.hands, c')) || (e.Scan? && Expired(w.q, m, w.clock));
    }
    forall c' | Holds(HandOf(w'.hands, c')) ensures PassedOr(w', HandOf(w'.hands, c').m, early) {
      assert c' != c ==> HandOf(w'.hands, c') == HandOf(w.hands, c');
      assert e == Pop(c) && c' == c ==> PassedOr(w, w.q.ready[|w.q.ready| - 1], early);
    }
  }

  lemma {:induction false} RunKeepsTimely(f: Config, w: World, es: seq<Command>, early: Option<Message>)
    requires Runs(f, w, es) && NoSweptExtended(f, w, es)
    requires NowhereTwice(w) && NoneForged(w) && HandlesPast(w) && TimelyBut(w, early)
    ensures var w' := After(f, w, es); NowhereTwice(w') && NoneForged(w') && HandlesPast(w') && TimelyBut(w', early)
    decreases |es|
  {
    hide NowhereTwice, NoneForged, HandlesPast, TimelyBut, Step, Enabled, ExtendsSwept;
    if es != [] {
      StepNowhereTwice(f, w, es[0]);
      StepKeepsHandles(f, w, es[0]);
      StepKeepsTimely(f, w, es[0], early);
      RunKeepsTimely(f, Step(f, w, es[0]), es[1..], early);
    }
  }

  /** Between commands too, no message is delivered before its last deadline, as long as
      no heartbeat extends a handle that a sweep has already picked up. */
  lemma NeverEarlyUnlessSwept(f: Config, clock: int, es: seq<Command>, c: Client)
    requires Runs(f, Start(clock), es) && NoSweptExtended(f, Start(clock), es)
    requires Enabled(After(f, Start(clock), es), Settle(c))
    ensures var w := After(f, Start(clock), es); Passed(w, HandOf(w.hands, c).m)
  {
    RunKeepsTimely(f, Start(clock), es, None);
  }

  // ---- the race

  /** The handle's last deadline is ahead. */
  ghost predicate Ahead(w: World, h: Message) {
    NowhereTwice(w) && NoneForged(w) && h in w.due && w.due[h] > w.clock
  }

  /** The next time the handle's message is popped, it is buried, or not. */
  predicate Buries(f: Config, h: Message, buried: bool) { buried <==> Redelivery(h).count > f.maxReceiveCount }

  /** A client has popped a message whose last deadline is ahead, and is about to bury it, if it
      was delivered too often already, or else to be given it. */
  ghost predicate EarlyFor(f: Config, w: World, c: Client, buried: bool) {
    && Enabled(w, Settle(c)) && !Passed(w, HandOf(w.hands, c).m)
    && Buries(f, HandOf(w.hands, c).m, buried)
  }

  /** Without another such heartbeat, some interleaving comes to that. */
  ghost predicate ComesEarly(f: Config, w: World, buried: bool) {
    exists es, c :: Runs(f, w, es) && NoSweptExtended(f, w, es) && EarlyFor(f, After(f, w, es), c, buried)
  }

  lemma ComesAfter(f: Config, w: World, e: Command, buried: bool)
    requires Enabled(w, e) && !e.Extend? && ComesEarly(f, Step(f, w, e), buried)
    ensures ComesEarly(f, w, buried)
  {
    hide Step, Enabled;
    var next := Step(f, w, e);
    var es, c :| Runs(f, next, es) && NoSweptExtended(f, next, es) && EarlyFor(f, After(f, next, es), c, buried);
    assert ([e] + es)[1..] == es && ([e] + es)[0] == e;
    assert Runs(f, w, [e] + es) && NoSweptExtended(f, w, [e] + es) && After(f, w, [e] + es) == After(f, next, es);
  }

  /** The client pops what lies to the right of the handle, and then the handle. */
  lemma {:induction false} PopsDown(f: Config, w: World, c: Client, h: Message, i: nat, buried: bool)
    requires Ahead(w, h) && Buries(f, h, buried) && HandOf(w.hands, c).Popping? && i < |w.q.ready| && w.q.ready[i] == h
    ensures ComesEarly(f, w, buried)
    decreases |w.q.ready|
  {
    hide ComesEarly;
    var w1 := Step(f, w, Pop(c));
    StepNowhereTwice(f, w, Pop(c));
    if i == |w.q.ready| - 1 {
      IsEarly(f, w1, c, h, buried);
    } else {
      var x := HandOf(w1.hands, c).m;
      assert Here(w1, h.id, Stored(InReady(i))) && Here(w1, x.id, InHand(c));
      StepNowhereTwice(f, w1, Settle(c));
      PopsDown(f, Step(f, w1, Settle(c)), c, h, i, buried);
      ComesAfter(f, w1, Settle(c), buried);
    }
    ComesAfter(f, w, Pop(c), buried);
  }

  lemma IsEarly(f: Config, w: World, c: Client, h: Message, buried: bool)
    requires Ahead(w, h) && Buries(f, h, buried) && HandOf(w.hands, c) == Popped(h)
    ensures ComesEarly(f, w, buried)
  {
    assert Runs(f, w, []) && NoSweptExtended(f, w, []) && EarlyFor(f, After(f, w, []), c, buried);
  }

  /** One turn of a sweep: try the first of the batch, and put it back if it was there. */
  lemma SweepTurn(f: Config, w: World, c: Client, buried: bool) returns (w': World)
    requires NowhereTwice(w) && NoneForged(w) && HandOf(w.hands, c).Sweeping? && HandOf(w.hands, c).batch != []
    ensures NowhereTwice(w') && NoneForged(w') && w'.due == w.due && w'.clock == w.clock
    ensures HandOf(w'.hands, c) == Sweeping(HandOf(w.hands, c).batch[1..])
    ensures var m := HandOf(w.hands, c).batch[0];
            && w'.q.inflight == w.q.inflight - {m}
            && w'.q.ready == if m in w.q.inflight then w.q.ready + [m] else w.q.ready
    ensures ComesEarly(f, w', buried) ==> ComesEarly(f, w, buried)
  {
    hide ComesEarly;
    StepNowhereTwice(f, w, TryRemove(c));
    w' := Step(f, w, TryRemove(c));
    if HandOf(w'.hands, c).Returning? {
      var w1 := w';
      StepNowhereTwice(f, w1, PushBack(c));
      w' := Step(f, w1, PushBack(c));
      if ComesEarly(f, w', buried) {
        ComesAfter(f, w1, PushBack(c), buried);
      }
    }
    if ComesEarly(f, Step(f, w, TryRemove(c)), buried) {
      ComesAfter(f, w, TryRemove(c), buried);
    }
  }

  /** The client finishes its batch, with the handle back in the ready list. */
  lemma {:induction false} SweepsOn(f: Config, w: World, c: Client, h: Message, i: nat, buried: bool)
    requires Ahead(w, h) && Buries(f, h, buried) && HandOf(w.hands, c).Sweeping? && i < |w.q.ready| && w.q.ready[i] == h
    ensures ComesEarly(f, w, buried)
    decreases |HandOf(w.hands, c).batch|
  {
    hide ComesEarly;
    if HandOf(w.hands, c).batch == [] {
      StepNowhereTwice(f, w, EndSweep(c));
      PopsDown(f, Step(f, w, EndSweep(c)), c, h, i, buried);
      ComesAfter(f, w, EndSweep(c), buried);
    } else {
      var w' := SweepTurn(f, w, c, buried);
      SweepsOn(f, w', c, h, i, buried);
    }
  }

  /** The client comes to the handle in its batch, and removes it. */
  lemma {:induction false} SweepsTo(f: Config, w: World, c: Client, h: Message, buried: bool)
    requires Ahead(w, h) && Buries(f, h, buried) && HandOf(w.hands, c).Sweeping? && h in HandOf(w.hands, c).batch && h in w.q.inflight
    ensures ComesEarly(f, w, buried)
    decreases |HandOf(w.hands, c).batch|
  {
    hide ComesEarly;
    var batch := HandOf(w.hands, c).batch;
    var w' := SweepTurn(f, w, c, buried);
    if batch[0] == h {
      SweepsOn(f, w', c, h, |w.q.ready|, buried);
    } else {
      SweepsTo(f, w', c, h, buried);
    }
  }

  lemma SweptComesEarly(f: Config, w: World, c: Client, h: Message, buried: bool)
    requires Ahead(w, h) && Buries(f, h, buried) && h in Pending(HandOf(w.hands, c)) && h in w.q.inflight
    ensures ComesEarly(f, w, buried)
  {
    hide ComesEarly;
    if HandOf(w.hands, c).Returning? {
      StepNowhereTwice(f, w, PushBack(c));
      SweepsTo(f, Step(f, w, PushBack(c)), c, h, buried);
      ComesAfter(f, w, PushBack(c), buried);
    } else {
      SweepsTo(f, w, c, h, buried);
    }
  }

  /** The heartbeat's handle is the only one it can make early. */
  lemma OnlyTheExtended(f: Config, w: World, e: Command)
    requires Enabled(w, e) && NowhereTwice(w) && Timely(w) && e.Extend?
    ensures TimelyBut(Step(f, w, e), Some(e.h))
  {
    var w' := Step(f, w, e);
    if e.h in w.q.inflight {
      forall m | m in w.due && m != e.h ensures w'.due[m] == w.due[m] {
      }
    }
  }

  lemma EarlyAfterIff(f: Config, w: World, e: Command, buried: bool)
    requires Enabled(w, e) && NowhereTwice(w) && NoneForged(w) && HandlesPast(w) && Timely(w)
    ensures ComesEarly(f, Step(f, w, e), buried) <==> ExtendsSwept(w, e) && Buries(f, e.h, buried)
  {
    var w' := Step(f, w, e);
    StepNowhereTwice(f, w, e);
    if ExtendsSwept(w, e) && Buries(f, e.h, buried) {
      var c :| e.h in Pending(HandOf(w.hands, c));
      SweptComesEarly(f, w', c, e.h, buried);
    } else {
      var early := if ExtendsSwept(w, e) then Some(e.h) else None;
      if ExtendsSwept(w, e) {
        OnlyTheExtended(f, w, e);
      } else {
        StepKeepsTimely(f, w, e, None);
      }
      StepKeepsHandles(f, w, e);
      forall es, c | Runs(f, w', es) && NoSweptExtended(f, w', es) ensures !EarlyFor(f, After(f, w', es), c, buried) {
        RunKeepsTimely(f, w', es, early);
      }
    }
  }

  /** Wherever a run without one has come to: a command can lead, in some further interleaving
      without another, to a message being given out before its last deadline if and only if it
      is a heartbeat that extends a handle which a sweep has picked up and not tried yet, with a
      delivery left. */
  lemma EarlyDeliveryIff(f: Config, clock: int, es: seq<Command>, e: Command)
    requires Runs(f, Start(clock), es) && NoSweptExtended(f, Start(clock), es)
    requires Enabled(After(f, Start(clock), es), e)
    ensures var w := After(f, Start(clock), es);
            ComesEarly(f, Step(f, w, e), false) <==> ExtendsSwept(w, e) && e.h.count < f.maxReceiveCount
  {
    RunKeepsTimely(f, Start(clock), es, None);
    EarlyAfterIff(f, After(f, Start(clock), es), e, false);
  }

  /** And to a message being buried before its last deadline, while its last delivery is still
      worked on, if and only if the handle has no delivery left. */
  lemma EarlyBurialIff(f: Config, clock: int, es: seq<Command>, e: Command)
    requires Runs(f, Start(clock), es) && NoSweptExtended(f, Start(clock), es)
    requires Enabled(After(f, Start(clock), es), e)
    ensures var w := After(f, Start(clock), es);
            ComesEarly(f, Step(f, w, e), true) <==> ExtendsSwept(w, e) && e.h.count >= f.maxReceiveCount
  {
    RunKeepsTimely(f, Start(clock), es, None);
    EarlyAfterIff(f, After(f, Start(clock), es), e, true);
  }

  ghost predicate Reachable(f: Config, clock: int, w: World) {
    exists es :: Runs(f, Start(clock), es) && After(f, Start(clock), es) == w
  }

  lemma Onward(f: Config, clock: int, w: World, e: Command) returns (w': World)
    requires Reachable(f, clock, w) && Enabled(w, e)
    ensures w' == Step(f, w, e) && Reachable(f, clock, w')
  {
    var es :| Runs(f, Start(clock), es) && After(f, Start(clock), es) == w;
    w' := Step(f, w, e);
    assert Runs(f, w', []);
    Joined(f, Start(clock), es, [e]);
  }

  /** One message sent, and delivered to client 0. */
  lemma OneDelivered(f: Config, clock: int, m: Message) returns (w: World)
    requires f.maxReceiveCount >= 1 && m.id == 0 && m.count == 0
    ensures Reachable(f, clock, w)
    ensures var deadline := clock + f.visibilityTimeout;
            w.q == State([], map[Redelivery(m) := deadline], []) && w.due == map[Redelivery(m) := deadline]
            && w.clock == clock && HandOf(w.hands, 0) == Popping && HandOf(w.hands, 1) == Idle
  {
    w := Start(clock);
    assert Runs(f, w, []);
    w := Onward(f, clock, w, Send(m.kind, m.job, m.payload, 0));
    assert w.q == State([m], map[], []);
    w := Onward(f, clock, w, Scan(0, []));
    w := Onward(f, clock, w, EndSweep(0));
    w := Onward(f, clock, w, Pop(0));
    assert w.q == State([], map[], []);
    w := Onward(f, clock, w, Settle(0));
  }

  /** Its lease lapses, client 1 scans, client 0's heartbeat extends the lease, and
      client 1 removes the message from the leased set all the same. */
  lemma ExtendedWhileSwept(f: Config, clock: nat, m: Message) returns (w: World)
    requires f.visibilityTimeout >= 0 && f.maxReceiveCount >= 1 && m.id == 0 && m.count == 0
    ensures Reachable(f, clock, w)
    ensures w.q.ready == [] && HandOf(w.hands, 1) == Returning(Redelivery(m), []) && !Passed(w, Redelivery(m))
  {
    w := OneDelivered(f, clock, m);
    w := Onward(f, clock, w, Tick(f.visibilityTimeout));
    w := Onward(f, clock, w, Scan(1, [Redelivery(m)]));
    w := Onward(f, clock, w, Extend(Redelivery(m), 300));
    w := Onward(f, clock, w, TryRemove(1));
  }

  /** The race, run through to the delivery: client 1 is about to be given a message whose
      last deadline is still ahead. */
  lemma EarlyRedelivery(f: Config, clock: nat) returns (w: World)
    requires f.visibilityTimeout >= 0 && f.maxReceiveCount >= 2
    ensures Reachable(f, clock, w) && EarlyFor(f, w, 1, false)
  {
    var m := Message(0, "transcribe", Some("j"), "", 0);
    w := ExtendedWhileSwept(f, clock, m);
    w := Onward(f, clock, w, PushBack(1));
    w := Onward(f, clock, w, EndSweep(1));
    assert w.q.ready == [Redelivery(m)];
    w := Onward(f, clock, w, Pop(1));
  }

  lemma {:induction false} Joined(f: Config, w: World, es: seq<Command>, gs: seq<Command>)
    requires Runs(f, w, es) && Runs(f, After(f, w, es), gs)
    ensures Runs(f, w, es + gs) && After(f, w, es + gs) == After(f, After(f, w, es), gs)
    decreases |es|
  {
    if es == [] {
      assert es + gs == gs;
    } else {
      Joined(f, Step(f, w, es[0]), es[1..], gs);
      assert (es + gs)[1..] == es[1..] + gs;
    }
  }
}
