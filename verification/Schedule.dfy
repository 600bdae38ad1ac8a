/**
 Posting slots: at most one episode a date, one date an episode (edlo/services/schedule.py),
 how episodes get, change and lose them (apps/api/app/routes/episodes.py,
 edlo/services/deletion.py), and the client's twin of the search for a free date
 (apps/web/src/lib/dates.ts). Dates are day numbers.
 */
module Schedule {
  import opened Wrappers

  type EpisodeId = string
  type Date = int

  const CADENCE_DAYS := 14
  const GUARD := 200

  datatype Error = SlotInPast | SlotTaken | EpisodeNotFound | CannotDelete

  /** `slots` is posting_slots, whose dates are unique; `publishOn` is the episodes' column. */
  datatype Book = Book(slots: map<Date, EpisodeId>, publishOn: map<EpisodeId, Option<Date>>, published: set<EpisodeId>)

  function Released(slots: map<Date, EpisodeId>, e: EpisodeId): map<Date, EpisodeId> {
    map d | d in slots && slots[d] != e :: slots[d]
  }

  /** publish_on is exactly the one slot an episode holds. */
  ghost predicate Consistent(b: Book) {
    && (forall d :: d in b.slots ==> b.slots[d] in b.publishOn && b.publishOn[b.slots[d]] == Some(d))
    && (forall e, d :: e in b.publishOn && b.publishOn[e] == Some(d) ==> d in b.slots && b.slots[d] == e)
  }

  /** So no two episodes ever share a date, and an episode holds no second slot. */
  lemma ConsistentMeans(b: Book)
    requires Consistent(b)
    ensures forall e, f, d :: e in b.publishOn && f in b.publishOn && b.publishOn[e] == Some(d) && b.publishOn[f] == Some(d) ==> e == f
    ensures forall c, d :: c in b.slots && d in b.slots && b.slots[c] == b.slots[d] ==> c == d
  {
    forall c, d | c in b.slots && d in b.slots && b.slots[c] == b.slots[d] ensures c == d {
      assert b.publishOn[b.slots[c]] == Some(c);
    }
  }

  // ---- the cadence

  /** The k-th date of a cadence. */
  function Nth(start: Date, cadence: int, k: nat): Date {
    if k == 0 then start else Nth(start, cadence, k - 1) + cadence
  }

  lemma {:induction false} NthIs(start: Date, cadence: int, k: nat)
    ensures Nth(start, cadence, k) == start + k * cadence
  {
    if k > 0 {
      NthIs(start, cadence, k - 1);
    }
  }

  lemma {:induction false} NthMoves(start: Date, cadence: int, j: nat, k: nat)
    requires cadence != 0 && j < k
    ensures if cadence > 0 then Nth(start, cadence, j) < Nth(start, cadence, k) else Nth(start, cadence, j) > Nth(start, cadence, k)
  {
    if j < k - 1 {
      NthMoves(start, cadence, j, k - 1);
    }
  }

  /** The k-th date after `after` is free and no earlier one of the cadence is. */
  ghost predicate LeastFree(taken: set<Date>, after: Date, cadence: int, k: nat) {
    && k >= 1
    && Nth(after, cadence, k) !in taken
    && forall j: nat :: 1 <= j < k ==> Nth(after, cadence, j) in taken
  }

  /** Terminates because a cadence never comes back to a date, and finitely many are taken; one
      of zero days stays where it is, and would never end only on a taken date. */
  method NextFreeSlot(taken: set<Date>, cadence: int, after: Date) returns (candidate: Date)
    requires cadence != 0 || after !in taken
    ensures exists k: nat :: LeastFree(taken, after, cadence, k) && candidate == Nth(after, cadence, k)
  {
    candidate := after + cadence;
    ghost var k: nat := 1;
    assert candidate == Nth(after, cadence, 1) by {
      assert Nth(after, cadence, 0) == after;
    }
    ghost var seen: set<Date> := {};
    while candidate in taken
      invariant k >= 1 && candidate == Nth(after, cadence, k)
      invariant forall j: nat :: 1 <= j < k ==> Nth(after, cadence, j) in taken
      invariant forall d :: d in seen ==> if cadence > 0 then d < candidate else d > candidate
      decreases taken - seen
    {
      assert candidate in taken - seen;
      seen := seen + {candidate};
      candidate := candidate + cadence;
      k := k + 1;
    }
  }

  // ---- the operations

  function Assigned(b: Book, e: EpisodeId, d: Date, today: Date): Result<Book, Error> {
    if d < today then Err(SlotInPast)
    else if d in Released(b.slots, e) then Err(SlotTaken)
    else Ok(b.(slots := Released(b.slots, e)[d := e], publishOn := b.publishOn[e := Some(d)]))
  }

  datatype Op =
    | Register(e: EpisodeId, recordedOn: Date, today: Date, k: nat)
    | SetSlot(e: EpisodeId, d: Date, today: Date)
    | Publish(e: EpisodeId)
    | Delete(e: EpisodeId)

  /** A request and its answer. `k` is the index at which the search for a free date ends. */
  ghost predicate Enabled(b: Book, op: Op) {
    match op
    case Register(e, recordedOn, _, k) => e !in b.publishOn && LeastFree(b.slots.Keys, recordedOn, CADENCE_DAYS, k)
    case _ => true
  }

  function After(b: Book, op: Op): Result<Book, Error> {
    match op
    case Register(e, recordedOn, today, k) =>
      Assigned(b.(publishOn := b.publishOn[e := None]), e, Nth(recordedOn, CADENCE_DAYS, k), today)
    case SetSlot(e, d, today) => if e !in b.publishOn then Err(EpisodeNotFound) else Assigned(b, e, d, today)
    case Publish(e) => if e in b.publishOn then Ok(b.(published := b.published + {e})) else Err(EpisodeNotFound)
    case Delete(e) =>
      if e !in b.publishOn then Err(EpisodeNotFound)
      else if e in b.published then Err(CannotDelete)
      else Ok(b.(slots := Released(b.slots, e), publishOn := b.publishOn - {e}))
  }

  /** A request that fails is rolled back. */
  function Settled(b: Book, op: Op): Book {
    match After(b, op)
    case Ok(next) => next
    case Err(_) => b
  }

  lemma AssignKeepsConsistent(b: Book, e: EpisodeId, d: Date, today: Date)
    requires e in b.publishOn
    requires Consistent(b) || (b.publishOn[e] == None && Consistent(b.(publishOn := b.publishOn - {e})))
    ensures Assigned(b, e, d, today).Ok? ==> Consistent(Assigned(b, e, d, today).value)
  {
    if Assigned(b, e, d, today).Ok? {
      var next := Assigned(b, e, d, today).value;
      var was := if Consistent(b) then b else b.(publishOn := b.publishOn - {e});
      forall f, c | f in next.publishOn && next.publishOn[f] == Some(c) ensures c in next.slots && next.slots[c] == f {
        if f != e {
          assert f in was.publishOn && was.publishOn[f] == Some(c);
        }
      }
      forall c | c in next.slots ensures next.slots[c] in next.publishOn && next.publishOn[next.slots[c]] == Some(c) {
        if c != d {
          assert c in was.slots && was.slots[c] == next.slots[c];
        }
      }
    }
  }

  lemma OpKeepsConsistent(b: Book, op: Op)
    requires Consistent(b) && Enabled(b, op)
    ensures Consistent(Settled(b, op))
  {
    match op
    case Register(e, recordedOn, today, k) =>
      var joined := b.(publishOn := b.publishOn[e := None]);
      assert joined.publishOn - {e} == b.publishOn;
      AssignKeepsConsistent(joined, e, Nth(recordedOn, CADENCE_DAYS, k), today);
    case SetSlot(e, d, today) =>
      if e in b.publishOn {
        AssignKeepsConsistent(b, e, d, today);
      }
    case Publish(_) =>
    case Delete(_) =>
  }

  ghost predicate Runs(b: Book, ops: seq<Op>, c: Book)
    decreases |ops|
  {
    if ops == [] then b == c else Enabled(b, ops[0]) && Runs(Settled(b, ops[0]), ops[1..], c)
  }

  /** Over any run of registrations, reassignments, refusals and deletions, publish_on is
      exactly the one slot each episode holds. */
  lemma {:induction false} RunKeepsConsistent(b: Book, ops: seq<Op>, c: Book)
    requires Consistent(b) && Runs(b, ops, c)
    ensures Consistent(c)
    decreases |ops|
  {
    if ops != [] {
      OpKeepsConsistent(b, ops[0]);
      RunKeepsConsistent(Settled(b, ops[0]), ops[1..], c);
    }
  }

  /** Registration never finds its date taken; it fails exactly when the first free date of
      the cadence is already past. */
  lemma RegisterFailsIffPast(b: Book, op: Op)
    requires Consistent(b) && Enabled(b, op) && op.Register?
    ensures After(b, op) != Err(SlotTaken)
    ensures After(b, op).Err? <==> Nth(op.recordedOn, CADENCE_DAYS, op.k) < op.today
    ensures After(b, op).Ok? ==> After(b, op).value.publishOn[op.e] == Some(Nth(op.recordedOn, CADENCE_DAYS, op.k))
  {
  }

  lemma HoldsNone(b: Book, e: EpisodeId)
    requires Consistent(b) && e !in b.publishOn
    ensures Released(b.slots, e) == b.slots
  {
    assert forall d :: d in b.slots ==> b.slots[d] != e;
  }

  /** A reassignment fails exactly on a past date or one that another episode holds; holding
      on to one's own date is fine, and the date given up is free again. */
  lemma SetSlotFailsIff(b: Book, e: EpisodeId, d: Date, today: Date)
    requires Consistent(b) && e in b.publishOn
    ensures var next := After(b, SetSlot(e, d, today));
            && (next == Err(SlotInPast) <==> d < today)
            && (next == Err(SlotTaken) <==> d >= today && exists f :: f in b.publishOn && f != e && b.publishOn[f] == Some(d))
            && (next.Ok? ==>
                  forall c :: c in next.value.slots <==> c == d || (c in b.slots && b.publishOn[e] != Some(c)))
  {
    if d in b.slots {
      assert b.publishOn[b.slots[d]] == Some(d);
    }
  }

  lemma {:induction false} StaysPublished(b: Book, ops: seq<Op>, c: Book, e: EpisodeId)
    requires Runs(b, ops, c) && e in b.publishOn && e in b.published
    ensures e in c.publishOn && e in c.published
    decreases |ops|
  {
    if ops != [] {
      StaysPublished(Settled(b, ops[0]), ops[1..], c, e);
    }
  }

  /** Once an episode is published no run of requests removes it. */
  lemma PublishedForGood(b: Book, ops: seq<Op>, c: Book, e: EpisodeId)
    requires e in b.publishOn && Runs(Settled(b, Publish(e)), ops, c)
    ensures e in c.publishOn && e in c.published
  {
    StaysPublished(Settled(b, Publish(e)), ops, c, e);
  }

  // ---- the database

  class ScheduleService {
    var slots: map<Date, EpisodeId>
    var publishOn: map<EpisodeId, Option<Date>>
    var published: set<EpisodeId>

    ghost function View(): Book
      reads this
    {
      Book(slots, publishOn, published)
    }

    /** The old slot is released before the insert; a taken date rolls both back. */
    method Assign(e: EpisodeId, d: Date, today: Date) returns (r: Result<(), Error>)
      modifies this
      ensures r.Ok? <==> Assigned(old(View()), e, d, today).Ok?
      ensures r.Ok? ==> View() == Assigned(old(View()), e, d, today).value
      ensures r.Err? ==> View() == old(View()) && r.error == Assigned(old(View()), e, d, today).error
      ensures r == Err(SlotInPast) <==> d < today
      ensures r == Err(SlotTaken) <==> d >= today && d in old(slots) && old(slots)[d] != e
      ensures published == old(published)
      ensures r.Ok? ==>
                && publishOn == old(publishOn)[e := Some(d)] && d in slots && slots[d] == e
                && forall c :: c != d ==> (c in slots <==> c in old(slots) && old(slots)[c] != e)
                                          && (c in slots ==> slots[c] == old(slots)[c])
    {
      if d < today {
        return Err(SlotInPast);
      }
      var savepoint := slots;
      slots := Released(slots, e);
      if d in slots {
        slots := savepoint;
        return Err(SlotTaken);
      }
      slots := slots[d := e];
      publishOn := publishOn[e := Some(d)];
      return Ok(());
    }

    method CreateEpisode(e: EpisodeId, recordedOn: Date, today: Date) returns (r: Result<(), Error>)
      requires e !in publishOn && Consistent(View())
      modifies this
      ensures Consistent(View())
      ensures r != Err(SlotTaken)
      ensures exists k: nat ::
                && LeastFree(old(slots).Keys, recordedOn, CADENCE_DAYS, k)
                && View() == Settled(old(View()), Register(e, recordedOn, today, k))
                && (r.Ok? <==> Nth(recordedOn, CADENCE_DAYS, k) >= today)
      ensures r.Err? ==> r.error == SlotInPast && View() == old(View())
      ensures r.Ok? ==> exists k: nat ::
                && k >= 1 && recordedOn + k * 14 !in old(slots)
                && (forall j: nat :: 1 <= j < k ==> Nth(recordedOn, 14, j) in old(slots))
                && slots == old(slots)[recordedOn + k * 14 := e]
                && publishOn == old(publishOn)[e := Some(recordedOn + k * 14)] && published == old(published)
    {
      ghost var was := View();
      HoldsNone(was, e);
      var before := publishOn;
      publishOn := publishOn[e := None];
      var d := NextFreeSlot(slots.Keys, CADENCE_DAYS, recordedOn);
      ghost var k: nat :| LeastFree(slots.Keys, recordedOn, CADENCE_DAYS, k) && d == Nth(recordedOn, CADENCE_DAYS, k);
      r := Assign(e, d, today);
      if r.Err? {
        publishOn := before;
      }
      OpKeepsConsistent(was, Register(e, recordedOn, today, k));
      RegisterFailsIffPast(was, Register(e, recordedOn, today, k));
      NthIs(recordedOn, CADENCE_DAYS, k);
    }

    method SetSlot(e: EpisodeId, d: Date, today: Date) returns (r: Result<(), Error>)
      modifies this
      ensures View() == Settled(old(View()), Op.SetSlot(e, d, today))
      ensures r.Ok? <==> After(old(View()), Op.SetSlot(e, d, today)).Ok?
      ensures r.Err? ==> r.error == After(old(View()), Op.SetSlot(e, d, today)).error
      ensures r == Err(EpisodeNotFound) <==> e !in old(publishOn)
    {
      if e !in publishOn {
        return Err(EpisodeNotFound);
      }
      r := Assign(e, d, today);
    }

    /** Deleting an episode frees its date and no other. */
    method DeleteEpisode(e: EpisodeId) returns (r: Result<(), Error>)
      requires Consistent(View())
      modifies this
      ensures View() == Settled(old(View()), Delete(e)) && Consistent(View())
      ensures r == Err(EpisodeNotFound) <==> e !in old(publishOn)
      ensures r == Err(CannotDelete) <==> e in old(publishOn) && e in old(published)
      ensures r.Ok? ==> forall d :: d in slots <==> d in old(slots) && old(publishOn)[e] != Some(d)
      ensures r.Ok? ==> forall d :: d in slots ==> slots[d] == old(slots)[d]
      ensures r.Ok? ==> publishOn == old(publishOn) - {e} && published == old(published)
    {
      OpKeepsConsistent(View(), Delete(e));
      if e !in publishOn {
        return Err(EpisodeNotFound);
      }
      if e in published {
        return Err(CannotDelete);
      }
      slots := Released(slots, e);
      publishOn := publishOn - {e};
      return Ok(());
    }
  }

  // ---- the client's suggestions

  /** The dates a new episode could take, among the first n of the cadence. */
  function Free(recordedOn: Date, taken: set<Date>, cadence: int, today: Date, n: nat): seq<Date> {
    if n == 0 then []
    else Free(recordedOn, taken, cadence, today, n - 1)
         + var d := Nth(recordedOn, cadence, n); if d >= today && d !in taken then [d] else []
  }

  method SuggestedSlots(recordedOn: Date, taken: set<Date>, count: int, cadence: int, today: Date) returns (out: seq<Date>)
    ensures var free := Free(recordedOn, taken, cadence, today, 200);
            out == free[..if count < 0 then 0 else if count < |free| then count else |free|]
  {
    out := [];
    var candidate := recordedOn + cadence;
    assert candidate == Nth(recordedOn, cadence, 1) by {
      assert Nth(recordedOn, cadence, 0) == recordedOn;
    }
    var guard := 0;
    while |out| < count && guard < GUARD
      invariant 0 <= guard <= GUARD && candidate == Nth(recordedOn, cadence, guard + 1)
      invariant out == Free(recordedOn, taken, cadence, today, guard)
      invariant |out| <= if count < 0 then 0 else count
    {
      if candidate >= today && candidate !in taken {
        out := out + [candidate];
      }
      candidate := candidate + cadence;
      guard := guard + 1;
    }
    FreeGrows(recordedOn, taken, cadence, today, guard, GUARD);
  }

  lemma {:induction false} FreeGrows(recordedOn: Date, taken: set<Date>, cadence: int, today: Date, m: nat, n: nat)
    requires m <= n
    ensures Free(recordedOn, taken, cadence, today, m) <= Free(recordedOn, taken, cadence, today, n)
  {
    if m < n {
      FreeGrows(recordedOn, taken, cadence, today, m, n - 1);
    }
  }

  lemma {:induction false} FreeMeans(recordedOn: Date, taken: set<Date>, cadence: int, today: Date, n: nat, d: Date)
    ensures d in Free(recordedOn, taken, cadence, today, n) <==>
            d >= today && d !in taken && exists k: nat :: 1 <= k <= n && Nth(recordedOn, cadence, k) == d
  {
    if n != 0 {
      FreeMeans(recordedOn, taken, cadence, today, n - 1, d);
      assert (exists k: nat :: 1 <= k <= n && Nth(recordedOn, cadence, k) == d)
        <==> (exists k: nat :: 1 <= k <= n - 1 && Nth(recordedOn, cadence, k) == d) || Nth(recordedOn, cadence, n) == d by {
        if Nth(recordedOn, cadence, n) != d {
          assert forall k: nat :: 1 <= k <= n && Nth(recordedOn, cadence, k) == d ==> k <= n - 1;
        }
      }
    }
  }

  /** What the client takes for occupied: every date on some episode. */
  function Shown(b: Book): set<Date> {
    set e | e in b.publishOn && b.publishOn[e].Some? :: b.publishOn[e].value
  }

  lemma ShownAreSlots(b: Book)
    requires Consistent(b)
    ensures Shown(b) == b.slots.Keys
  {
    forall d ensures d in Shown(b) <==> d in b.slots {
      if d in b.slots {
        assert b.publishOn[b.slots[d]] == Some(d);
      }
    }
  }

  lemma {:induction false} NoneFreeBefore(taken: set<Date>, recordedOn: Date, cadence: int, today: Date, k: nat, n: nat)
    requires LeastFree(taken, recordedOn, cadence, k) && n < k
    ensures Free(recordedOn, taken, cadence, today, n) == []
  {
    if n != 0 {
      NoneFreeBefore(taken, recordedOn, cadence, today, k, n - 1);
    }
  }

  /** The client's first suggestion for a fresh episode is the date the server would give it if
      and only if that date is not past and is among the first 200 of the cadence. */
  lemma FirstSuggestionIsServers(b: Book, recordedOn: Date, today: Date, k: nat)
    requires Consistent(b) && LeastFree(b.slots.Keys, recordedOn, CADENCE_DAYS, k)
    ensures var free := Free(recordedOn, Shown(b), CADENCE_DAYS, today, 200);
            var d := recordedOn + k * 14;
            |free| > 0 && free[0] == d <==> d >= today && k <= 200
  {
    ShownAreSlots(b);
    NthIs(recordedOn, CADENCE_DAYS, k);
    var taken := b.slots.Keys;
    var d := Nth(recordedOn, CADENCE_DAYS, k);
    var free := Free(recordedOn, taken, CADENCE_DAYS, today, GUARD);
    if d >= today && k <= GUARD {
      NoneFreeBefore(taken, recordedOn, CADENCE_DAYS, today, k, k - 1);
      FreeGrows(recordedOn, taken, CADENCE_DAYS, today, k, GUARD);
      assert Free(recordedOn, taken, CADENCE_DAYS, today, k) == [d];
    } else {
      FreeMeans(recordedOn, taken, CADENCE_DAYS, today, GUARD, d);
      forall j: nat | 1 <= j <= GUARD && k > GUARD ensures Nth(recordedOn, CADENCE_DAYS, j) != d {
        NthMoves(recordedOn, CADENCE_DAYS, j, k);
      }
    }
  }

  /** Whatever the client suggests, the server accepts. */
  lemma SuggestionsAccepted(b: Book, e: EpisodeId, recordedOn: Date, today: Date, d: Date)
    requires Consistent(b) && e in b.publishOn && d in Free(recordedOn, Shown(b), CADENCE_DAYS, today, GUARD)
    ensures After(b, SetSlot(e, d, today)).Ok?
  {
    ShownAreSlots(b);
    FreeMeans(recordedOn, Shown(b), CADENCE_DAYS, today, GUARD, d);
  }
}
