/**
 When a submission that passed its checks is not answered (apps/api/app/submit.py,
 apps/api/app/idempotency.py), over whole runs of interleaved requests: its response cannot be
 remembered because a record for its key and route is there already.
 */
module SubmissionRuns {
  import opened Submission
  import opened Wrappers

  type RecordKey = (IdemKey, Route)

  predicate HasRecord(w: World, k: RecordKey, rec: Record) { k in w.records && w.records[k] == rec }

  // ---- what happens to a record in a run

  /** The step remembers a response: it commits this record. */
  predicate Commits(s: State, step: Step, k: RecordKey, rec: Record) {
    && step.Go? && step.q in s.requests && s.requests[step.q].pc.Telling?
    && At(s.requests[step.q].r) == k
    && rec == Record(BodyOf(s.requests[step.q].r), s.requests[step.q].pc.response, s.w.now)
    && Advance(s.w, s.requests[step.q].r, s.requests[step.q].pc).1.Done?
    && Advance(s.w, s.requests[step.q].r, s.requests[step.q].pc).1.answer.Accepted?
  }

  /** Some request other than q commits the record in the run. */
  ghost predicate CommittedSince(s: State, steps: seq<Step>, q: RequestId, k: RecordKey, rec: Record)
    decreases |steps|
  {
    steps != [] && Enabled(s, steps[0])
    && ((Commits(s, steps[0], k, rec) && steps[0].q != q) || CommittedSince(After(s, steps[0]), steps[1..], q, k, rec))
  }

  /** Request q finds its job there while its transaction is deleting its record: the rollback
      undoes the deletion. */
  predicate RollsBack(s: State, step: Step, q: RequestId) {
    && step == Go(q) && q in s.requests
    && s.requests[q].pc.Marked? && s.requests[q].pc.stale.Some?
    && !StoresOnly(s.w, s.requests[q].r) && FoundFor(s.w, s.requests[q].r).Some?
  }

  ghost predicate RolledBack(s: State, steps: seq<Step>, q: RequestId)
    decreases |steps|
  {
    steps != [] && Enabled(s, steps[0])
    && (RollsBack(s, steps[0], q) || RolledBack(After(s, steps[0]), steps[1..], q))
  }

  /** One step: a record that is there was there, or has just been committed. */
  lemma RecordFrom(s: State, step: Step, k: RecordKey)
    requires Enabled(s, step) && k in After(s, step).w.records
    ensures var rec := After(s, step).w.records[k];
            HasRecord(s.w, k, rec) || Commits(s, step, k, rec)
  {
    hide Find;
  }

  // ---- one flight

  /** Request q is flying for r, having found `saw` under its key when it looked. */
  ghost predicate Tracks(s: State, q: RequestId, r: Request, saw: Option<Record>, rolled: bool) {
    && q in s.requests && s.requests[q].r == r
    && (saw.Some? ==> saw.value.created < s.w.now)
    && (rolled ==> s.requests[q].pc.Telling?)
    && match s.requests[q].pc
       case Started => false
       case Looked(stale) => stale == saw
       case Marked(stale) => stale == saw || (stale == None && NotThere(s.w, r, saw))
       case Created(_) => NotThere(s.w, r, saw)
       case Telling(_, stale) =>
         if stale.Some? then stale == saw && !rolled else rolled || NotThere(s.w, r, saw)
  }

  predicate NotThere(w: World, r: Request, saw: Option<Record>) { saw.Some? ==> !HasRecord(w, At(r), saw.value) }

  /** A record that is gone does not come back: what is committed is newer. */
  lemma StaysGone(s: State, step: Step, r: Request, saw: Option<Record>)
    requires Enabled(s, step) && NotThere(s.w, r, saw) && (saw.Some? ==> saw.value.created < s.w.now)
    ensures NotThere(After(s, step).w, r, saw)
  {
    if saw.Some? && HasRecord(After(s, step).w, At(r), saw.value) {
      RecordFrom(s, step, At(r));
    }
  }

  lemma OwnStepTracks(s: State, q: RequestId, r: Request, saw: Option<Record>, rolled: bool)
    requires Tracks(s, q, r, saw, rolled) && q in After(s, Go(q)).requests
    ensures Tracks(After(s, Go(q)), q, r, saw, rolled || RollsBack(s, Go(q), q))
  {
    hide Find;
    if s.requests[q].pc.Created? {
      StaysGone(s, Go(q), r, saw);
    }
  }

  lemma OtherStepTracks(s: State, step: Step, q: RequestId, r: Request, saw: Option<Record>, rolled: bool)
    requires Tracks(s, q, r, saw, rolled) && Enabled(s, step)
    requires step != Go(q) && step != Crash(q) && !(step.Begin? && step.q == q)
    ensures Tracks(After(s, step), q, r, saw, rolled)
  {
    OtherStepKeepsFlight(s, step, q);
    if NotThere(s.w, r, saw) {
      StaysGone(s, step, r, saw);
    }
  }

  lemma OtherStepKeepsFlight(s: State, step: Step, q: RequestId)
    requires q in s.requests && Enabled(s, step)
    requires step != Go(q) && step != Crash(q) && !(step.Begin? && step.q == q)
    ensures q in After(s, step).requests && After(s, step).requests[q] == s.requests[q]
    ensures After(s, step).w.now >= s.w.now
  {
    hide Find;
  }

  /** The request does not start anew in the run. */
  predicate SameFlight(steps: seq<Step>, q: RequestId) {
    forall i :: 0 <= i < |steps| ==> !(steps[i].Begin? && steps[i].q == q)
  }

  lemma {:induction false} LandedStays(s: State, steps: seq<Step>, t: State, q: RequestId)
    requires Runs(s, steps, t) && SameFlight(steps, q) && q !in s.requests
    ensures q !in t.requests
    decreases |steps|
  {
    hide Find;
    if steps != [] {
      assert !(steps[0].Begin? && steps[0].q == q);
      assert SameFlight(steps[1..], q);
      LandedStays(After(s, steps[0]), steps[1..], t, q);
    }
  }

  /** While the request flies, its record is accounted for: what is under its key was there, or
      another request has committed it since. */
  lemma {:induction false} RunTracks(s: State, steps: seq<Step>, t: State, q: RequestId, r: Request, saw: Option<Record>, rolled: bool)
    requires Runs(s, steps, t) && SameFlight(steps, q) && q in t.requests && Tracks(s, q, r, saw, rolled)
    ensures Tracks(t, q, r, saw, rolled || RolledBack(s, steps, q))
    ensures At(r) in t.w.records ==>
              HasRecord(s.w, At(r), t.w.records[At(r)]) || CommittedSince(s, steps, q, At(r), t.w.records[At(r)])
    decreases |steps|
  {
    hide Tracks, After, Enabled, Commits, RollsBack;
    if steps != [] {
      var step, next := steps[0], After(s, steps[0]);
      assert !(step.Begin? && step.q == q);
      assert SameFlight(steps[1..], q);
      if q !in next.requests {
        LandedStays(next, steps[1..], t, q);
      } else {
        var now := rolled || RollsBack(s, step, q);
        StepTracks(s, step, q, r, saw, rolled);
        RunTracks(next, steps[1..], t, q, r, saw, now);
        if At(r) in t.w.records && HasRecord(next.w, At(r), t.w.records[At(r)]) {
          RecordFrom(s, step, At(r));
          FlyingCommitsNothing(s, step, q, At(r), t.w.records[At(r)]);
        }
      }
    }
  }

  lemma StepTracks(s: State, step: Step, q: RequestId, r: Request, saw: Option<Record>, rolled: bool)
    requires Tracks(s, q, r, saw, rolled) && Enabled(s, step) && !(step.Begin? && step.q == q) && q in After(s, step).requests
    ensures Tracks(After(s, step), q, r, saw, rolled || RollsBack(s, step, q))
  {
    if step == Go(q) {
      OwnStepTracks(s, q, r, saw, rolled);
    } else if step != Crash(q) {
      OtherStepTracks(s, step, q, r, saw, rolled);
    }
  }

  lemma FlyingCommitsNothing(s: State, step: Step, q: RequestId, k: RecordKey, rec: Record)
    requires Enabled(s, step) && q in After(s, step).requests
    ensures Commits(s, step, k, rec) ==> step.Go? && step.q != q
  {
  }

  /** What has been committed since the look-up is newer than what was found then. */
  lemma {:induction false} CommittedIsNewer(s: State, steps: seq<Step>, t: State, q: RequestId, k: RecordKey, rec: Record)
    requires Runs(s, steps, t) && CommittedSince(s, steps, q, k, rec)
    ensures rec.created >= s.w.now
    decreases |steps|
  {
    hide Find;
    if !(Commits(s, steps[0], k, rec) && steps[0].q != q) {
      CommittedIsNewer(After(s, steps[0]), steps[1..], t, q, k, rec);
    }
  }

  /** The record that request q looked at: none, or one that had expired. */
  function Saw(w: World, r: Request): Option<Record> {
    if At(r) in w.records then Some(w.records[At(r)]) else None
  }

  /** In every run: a request that has looked, at s, and passed its checks, and comes at t to
      remember its response, is answered 500 if and only if its own expired record is still
      there, put back by the rollback that found its job; or the record there is one that
      another request with the same key and route has committed since. Otherwise it gets its
      202 (200, if it stores the final mix). */
  lemma ServerErrorIff(s: State, q: RequestId, steps: seq<Step>, t: State)
    requires q in s.requests && s.requests[q].pc == Started && Look(s.w, s.requests[q].r).Next?
    requires Runs(After(s, Go(q)), steps, t) && SameFlight(steps, q)
    requires q in t.requests && t.requests[q].pc.Telling?
    ensures t.requests[q].r == s.requests[q].r
    ensures var r, saw, first := s.requests[q].r, Saw(s.w, s.requests[q].r), After(s, Go(q));
            var answer := Advance(t.w, r, t.requests[q].pc).1;
            && answer.Done? && (answer == Done(Refused(ServerError)) || answer == Done(Accepted(t.requests[q].pc.response)))
            && (answer == Done(Refused(ServerError)) <==>
                  || (saw.Some? && RolledBack(first, steps, q) && HasRecord(t.w, At(r), saw.value))
                  || (At(r) in t.w.records && CommittedSince(first, steps, q, At(r), t.w.records[At(r)])))
  {
    hide Find, RolledBack, CommittedSince, Runs, SameFlight;
    var r, saw, first := s.requests[q].r, Saw(s.w, s.requests[q].r), After(s, Go(q));
    assert Tracks(first, q, r, saw, false);
    RunTracks(first, steps, t, q, r, saw, false);
    if At(r) in t.w.records && CommittedSince(first, steps, q, At(r), t.w.records[At(r)]) {
      CommittedIsNewer(first, steps, t, q, At(r), t.w.records[At(r)]);
    }
  }

  // ---- the two causes

  lemma {:induction false} Joined(s: State, steps: seq<Step>, u: State, more: seq<Step>, t: State)
    requires Runs(s, steps, u) && Runs(u, more, t)
    ensures Runs(s, steps + more, t)
    decreases |steps|
  {
    if steps == [] {
      assert steps + more == more;
    } else {
      Joined(After(s, steps[0]), steps[1..], u, more, t);
      assert (steps + more)[1..] == steps[1..] + more;
    }
  }

  ghost predicate Reachable(s: State, t: State) { exists steps :: Runs(s, steps, t) }

  lemma Onward(s: State, u: State, step: Step) returns (t: State)
    requires Reachable(s, u) && Enabled(u, step)
    ensures t == After(u, step) && Reachable(s, t)
  {
    var steps :| Runs(s, steps, u);
    t := After(u, step);
    assert [step][1..] == [] && Runs(t, [], t);
    assert Runs(u, [step], t);
    Joined(s, steps, u, [step], t);
  }

  /** The same first request sent twice at once, with no record and no time passing: the first
      is accepted, and the second answered 500, though nothing of it had expired. */
  lemma TwinsCollide(key: IdemKey, e: EpisodeId, a: AudioId, c: Checksum, now: int) returns (s: State, t: State)
    requires key != ""
    ensures var r := Complete(key, e, a, c);
            && Fresh(s) && s.w.now == t.w.now && Reachable(s, t)
            && t.replies == [Reply(r, Accepted(Response(Some(0), false))), Reply(r, Refused(ServerError))]
  {
    var r := Complete(key, e, a, c);
    s := State(World(map[a := File(e, true, true)], map[a := Some(c)], {}, [], map[], [], now), map[], []);
    assert Runs(s, [], s);
    t := TwinsLook(s, r);
    t := FirstTwin(s, t, r);
    t := SecondTwin(s, t, r);
  }

  lemma TwinsLook(s: State, r: Request) returns (t: State)
    requires Reachable(s, s) && s.requests == map[] && At(r) !in s.w.records && r.key != "" && r.Complete?
    ensures Reachable(s, t) && t == s.(requests := map[1 := Flight(r, Looked(None)), 2 := Flight(r, Looked(None))])
  {
    t := Onward(s, s, Begin(1, r));
    t := Onward(s, t, Begin(2, r));
    t := Onward(s, t, Go(1));
    t := Onward(s, t, Go(2));
  }

  /** The final state of the first twin's four steps. */
  function FirstTwinDone(w: World, r: Request): World
    requires r.Complete?
  {
    w.(jobs := [Job(Transcribe, OfAudio(r.audio), r.episode)], sent := [0],
       records := map[At(r) := Record(BodyOf(r), Response(Some(0), false), w.now)])
  }

  predicate ReadyFor(w: World, r: Request) {
    r.Complete? && w.files == map[r.audio := File(r.episode, true, true)] && w.objects == map[r.audio := Some(r.checksum)]
  }

  lemma FirstTwin(s: State, u: State, r: Request) returns (t: State)
    requires Reachable(s, u) && u.requests == map[1 := Flight(r, Looked(None)), 2 := Flight(r, Looked(None))]
    requires ReadyFor(u.w, r) && u.w.jobs == [] && u.w.records == map[] && u.w.sent == [] && u.replies == []
    ensures Reachable(s, t)
    ensures t == State(FirstTwinDone(u.w, r), map[2 := Flight(r, Looked(None))], [Reply(r, Accepted(Response(Some(0), false)))])
  {
    t := FirstTwinCreates(s, u, r);
    t := Onward(s, t, Go(1));
    assert t.requests[1].pc == Telling(Response(Some(0), false), None) && t.w.sent == [0];
    t := Onward(s, t, Go(1));
    assert t.requests == map[2 := Flight(r, Looked(None))];
  }

  lemma FirstTwinCreates(s: State, u: State, r: Request) returns (t: State)
    requires Reachable(s, u) && u.requests == map[1 := Flight(r, Looked(None)), 2 := Flight(r, Looked(None))]
    requires ReadyFor(u.w, r) && u.w.jobs == []
    ensures Reachable(s, t)
    ensures t == State(u.w.(jobs := [Job(Transcribe, OfAudio(r.audio), r.episode)]),
                       map[1 := Flight(r, Created(0)), 2 := Flight(r, Looked(None))], u.replies)
  {
    var both := u.requests;
    assert Mark(u.w, r, None) == (u.w, Next(Marked(None)));
    t := Onward(s, u, Go(1));
    assert t == u.(requests := both[1 := Flight(r, Marked(None))]);
    FirstSubmits(u.w, r);
    hide Submit, Mark;
    t := Onward(s, t, Go(1));
    assert t.requests == map[1 := Flight(r, Created(0)), 2 := Flight(r, Looked(None))];
  }

  lemma FirstSubmits(w: World, r: Request)
    requires ReadyFor(w, r) && w.jobs == []
    ensures Submit(w, r, None) == (w.(jobs := [Job(Transcribe, OfAudio(r.audio), r.episode)]), Next(Created(0)))
  {
    assert Find(w.jobs, Transcribe, OfAudio(r.audio)).None?;
    assert w.jobs + [Job(Transcribe, OfAudio(r.audio), r.episode)] == [Job(Transcribe, OfAudio(r.audio), r.episode)];
  }

  lemma SecondTwin(s: State, u: State, r: Request) returns (t: State)
    requires Reachable(s, u) && u.requests == map[2 := Flight(r, Looked(None))] && ReadyFor(u.w, r)
    requires u.w.jobs == [Job(Transcribe, OfAudio(r.audio), r.episode)] && At(r) in u.w.records
    ensures Reachable(s, t) && t == State(u.w, map[], u.replies + [Reply(r, Refused(ServerError))])
  {
    t := Onward(s, u, Go(2));
    t := Onward(s, t, Go(2));
    assert t.requests[2].pc == Telling(Response(Some(0), true), None);
    t := Onward(s, t, Go(2));
    assert t.requests == map[];
  }

  /** A request that dies between its job's commit and the message leaves a job that nobody has
      announced; tried again it is accepted, as a replay, and still no message is sent. Only the
      reconciler sends one. */
  lemma CrashLeavesUnsent(key: IdemKey, e: EpisodeId, a: AudioId, c: Checksum, now: int) returns (s: State, t: State)
    requires key != ""
    ensures var r := Complete(key, e, a, c);
            && Fresh(s) && Reachable(s, t) && t.requests == map[]
            && t.w.jobs == [Job(Transcribe, OfAudio(a), e)] && t.w.sent == []
            && Call(t.w, r).1 == Accepted(Response(Some(0), true)) && Call(t.w, r).0.sent == []
  {
    var r := Complete(key, e, a, c);
    s := State(World(map[a := File(e, true, true)], map[a := Some(c)], {}, [], map[], [], now), map[], []);
    assert Runs(s, [], s);
    t := DiesCreated(s, r);
    assert FoundFor(t.w, r) == Some(0);
    FirstTimeAccepted(t.w, r);
  }

  lemma DiesCreated(s: State, r: Request) returns (t: State)
    requires Reachable(s, s) && s.requests == map[] && ReadyFor(s.w, r) && s.w.jobs == [] && At(r) !in s.w.records && r.key != ""
    ensures Reachable(s, t) && t == s.(w := s.w.(jobs := [Job(Transcribe, OfAudio(r.audio), r.episode)]))
  {
    t := Onward(s, s, Begin(1, r));
    t := Onward(s, t, Go(1));
    assert t == s.(requests := map[1 := Flight(r, Looked(None))]);
    t := Onward(s, t, Go(1));
    assert t == s.(requests := map[1 := Flight(r, Marked(None))]);
    FirstSubmits(s.w, r);
    hide Submit, Mark;
    t := Onward(s, t, Go(1));
    assert t.requests == map[1 := Flight(r, Created(0))];
    t := Onward(s, t, Crash(1));
    assert t.requests == map[];
  }

  // ---- a request whose record has expired

  /** Its job exists and nothing else is to be committed before, so its rollback will put back
      the record that has expired. */
  predicate Stuck(w: World, r: Request) {
    && r.key != "" && At(r) in w.records && Expired(w.records[At(r)], w.now)
    && (r.Complete? ==> r.audio in w.files && w.files[r.audio].episode == r.episode && w.files[r.audio].ready && w.files[r.audio].rough)
    && (r.Generate? ==> r.episode in w.transcribed)
    && FoundFor(w, r).Some?
  }

  lemma StuckFails(w: World, r: Request)
    ensures Call(w, r).1 == Refused(ServerError) <==> Stuck(w, r) && Passes(w, r)
    ensures Call(w, r).1 == Refused(ServerError) ==> Call(w, r).0 == w
  {
    hide Find, Call;
    CallFailsIff(w, r);
  }

  /** The step commits the deletion of the expired record: a request with its key and route marks
      its upload ready, creates its job, or stores the final mix. */
  predicate Replaces(s: State, step: Step, k: RecordKey) {
    && step.Go? && step.q in s.requests && At(s.requests[step.q].r) == k
    && var r, pc := s.requests[step.q].r, s.requests[step.q].pc;
       && StaleOf(pc).Some? && HasRecord(s.w, k, StaleOf(pc).value)
       && match pc
          case Looked(stale) => Mark(s.w, r, stale).1.Next? && CommitsFirst(s.w, r)
          case Marked(_) => !StoresOnly(s.w, r) && FoundFor(s.w, r).None?
          case _ => true
  }

  lemma KeptUnlessReplaced(s: State, step: Step, k: RecordKey)
    requires StaleExpired(s) && Enabled(s, step) && k in s.w.records && Expired(s.w.records[k], s.w.now)
    ensures HasRecord(After(s, step).w, k, s.w.records[k]) <==> !Replaces(s, step, k)
  {
    hide Find;
    if HasRecord(After(s, step).w, k, s.w.records[k]) {
      RecordFrom(s, step, k);
    }
  }

  ghost predicate NeverReplaced(s: State, steps: seq<Step>, k: RecordKey)
    decreases |steps|
  {
    steps == [] || (Enabled(s, steps[0]) && !Replaces(s, steps[0], k) && NeverReplaced(After(s, steps[0]), steps[1..], k))
  }

  lemma {:induction false} GoneForGood(s: State, steps: seq<Step>, t: State, k: RecordKey, rec: Record)
    requires Runs(s, steps, t) && !HasRecord(s.w, k, rec) && rec.created < s.w.now
    ensures !HasRecord(t.w, k, rec)
    decreases |steps|
  {
    hide Find;
    if steps != [] {
      var next := After(s, steps[0]);
      if HasRecord(next.w, k, rec) {
        RecordFrom(s, steps[0], k);
      }
      GoneForGood(next, steps[1..], t, k, rec);
    }
  }

  lemma StepKeepsStale(s: State, step: Step)
    requires StaleExpired(s) && Enabled(s, step)
    ensures StaleExpired(After(s, step)) && After(s, step).w.now >= s.w.now
  {
    StepKeepsRecord(s, step, ("", Route(Plan, "")));
  }

  lemma StepKeepsStuck(s: State, step: Step, r: Request)
    requires Stuck(s.w, r) && Enabled(s, step) && HasRecord(After(s, step).w, At(r), s.w.records[At(r)])
    ensures Stuck(After(s, step).w, r)
  {
    var t := After(s, step);
    JobStaysFound(s, step, r);
    hide Find;
    assert t.w.now >= s.w.now;
  }

  lemma JobStaysFound(s: State, step: Step, r: Request)
    requires Enabled(s, step) && FoundFor(s.w, r).Some?
    ensures FoundFor(After(s, step).w, r).Some?
  {
    var kind, key := RouteOf(r).kind, JobKeyOf(r.key, BodyOf(r));
    FindMeans(s.w.jobs, kind, key);
    FindMeans(After(s, step).w.jobs, kind, key);
    var n := FoundFor(s.w, r).value;
    hide Find;
    assert After(s, step).w.jobs[n] == s.w.jobs[n];
  }

  /** From s to t no request with this key and route has been accepted. */
  predicate NoneAccepted(s: State, t: State, k: RecordKey) {
    && |s.replies| <= |t.replies|
    && forall i :: |s.replies| <= i < |t.replies| && At(t.replies[i].r) == k ==> t.replies[i].answer.Refused?
  }

  lemma AcceptedReplaces(s: State, step: Step, k: RecordKey)
    requires Enabled(s, step) && k in s.w.records && Expired(s.w.records[k], s.w.now) && !Replaces(s, step, k)
    ensures NoneAccepted(s, After(s, step), k)
  {
    hide Find;
  }

  lemma NothingIsAccepted(s: State, k: RecordKey)
    ensures NoneAccepted(s, s, k)
  {
  }

  lemma NoneAcceptedJoins(s: State, u: State, t: State, k: RecordKey)
    requires NoneAccepted(s, u, k) && NoneAccepted(u, t, k)
    requires u.replies <= t.replies
    ensures NoneAccepted(s, t, k)
  {
  }

  lemma {:induction false} RepliesGrow(s: State, steps: seq<Step>, t: State)
    requires Runs(s, steps, t)
    ensures s.replies <= t.replies
    decreases |steps|
  {
    hide Find, Advance;
    if steps != [] {
      RepliesGrow(After(s, steps[0]), steps[1..], t);
    }
  }

  /** Through any run, whatever else is submitted, crashes or is deleted, until a request with
      the same key and route replaces the record, and only that does: after a request has failed
      on its own expired record, no request with its key and route is accepted, those in the
      middle of it included, and it would fail if it were tried again, its checks passing. */
  lemma {:induction false} FailsForGood(s: State, steps: seq<Step>, t: State, r: Request)
    requires StaleExpired(s) && Stuck(s.w, r) && Runs(s, steps, t)
    ensures HasRecord(t.w, At(r), s.w.records[At(r)]) <==> NeverReplaced(s, steps, At(r))
    ensures NeverReplaced(s, steps, At(r)) ==> NoneAccepted(s, t, At(r))
    ensures NeverReplaced(s, steps, At(r)) ==> (Call(t.w, r).1 == Refused(ServerError) <==> Passes(t.w, r))
    decreases |steps|
  {
    hide Find, After, Enabled, Call, Passes, Replaces, StaleExpired, NoneAccepted;
    var rec := s.w.records[At(r)];
    if steps == [] {
      StuckFails(s.w, r);
      assert NoneAccepted(s, t, At(r)) by { NothingIsAccepted(s, At(r)); }
    } else {
      var next := After(s, steps[0]);
      KeptUnlessReplaced(s, steps[0], At(r));
      StepKeepsStale(s, steps[0]);
      if Replaces(s, steps[0], At(r)) {
        GoneForGood(next, steps[1..], t, At(r), rec);
      } else {
        StepKeepsStuck(s, steps[0], r);
        FailsForGood(next, steps[1..], t, r);
        AcceptedReplaces(s, steps[0], At(r));
        RepliesGrow(next, steps[1..], t);
        if NeverReplaced(next, steps[1..], At(r)) {
          NoneAcceptedJoins(s, next, t, At(r));
        }
      }
    }
  }

  /** What a stale pc implies: a request that is to store a response and delete its record in one
      transaction stores the final mix. */
  predicate TellingRight(s: State) {
    forall q :: q in s.requests && s.requests[q].pc.Telling? && s.requests[q].pc.stale.Some? ==> StoresOnly(s.w, s.requests[q].r)
  }

  lemma StepKeepsTelling(s: State, step: Step)
    requires TellingRight(s) && Enabled(s, step)
    ensures TellingRight(After(s, step))
  {
    hide Find;
  }

  /** Every state that a run can come to is as these lemmas ask. */
  lemma {:induction false} RunsComeRight(s: State, steps: seq<Step>, t: State)
    requires StaleExpired(s) && TellingRight(s) && Runs(s, steps, t)
    ensures StaleExpired(t) && TellingRight(t)
    decreases |steps|
  {
    hide StaleExpired, TellingRight, After, Enabled;
    if steps != [] {
      StepKeepsStale(s, steps[0]);
      StepKeepsTelling(s, steps[0]);
      RunsComeRight(After(s, steps[0]), steps[1..], t);
    }
  }

  /** A request that has failed so does not replace the record by being tried again, at once or
      many times at once: only one for another audio file does, and plan and pack requests are
      for none. */
  lemma OwnRetryReplacesNothing(s: State, step: Step, r: Request)
    requires TellingRight(s) && Stuck(s.w, r) && Enabled(s, step) && Replaces(s, step, At(r))
    ensures r.Complete? && s.requests[step.q].r.Complete? && s.requests[step.q].r.audio != r.audio
  {
    hide Find;
  }

  lemma {:induction false} PlanNeverReplaced(s: State, steps: seq<Step>, t: State, r: Request)
    requires StaleExpired(s) && TellingRight(s) && Stuck(s.w, r) && r.Generate? && Runs(s, steps, t)
    ensures NeverReplaced(s, steps, At(r)) && Stuck(t.w, r)
    decreases |steps|
  {
    hide Find, After, Enabled, Replaces, StaleExpired, TellingRight;
    if steps != [] {
      if Replaces(s, steps[0], At(r)) {
        OwnRetryReplacesNothing(s, steps[0], r);
      }
      KeptUnlessReplaced(s, steps[0], At(r));
      StepKeepsStale(s, steps[0]);
      StepKeepsTelling(s, steps[0]);
      StepKeepsStuck(s, steps[0], r);
      PlanNeverReplaced(After(s, steps[0]), steps[1..], t, r);
    }
  }

  /** So after a plan or pack request has failed so, none with its key and route is ever
      accepted, whatever runs, and one that is tried again on its own is answered 500. */
  lemma PlanFailsForGood(s: State, steps: seq<Step>, t: State, r: Request)
    requires StaleExpired(s) && TellingRight(s) && Stuck(s.w, r) && r.Generate? && Runs(s, steps, t)
    ensures NeverReplaced(s, steps, At(r)) && NoneAccepted(s, t, At(r))
    ensures Call(t.w, r).1 == Refused(ServerError)
  {
    hide NeverReplaced, NoneAccepted, Runs, Call;
    PlanNeverReplaced(s, steps, t, r);
    FailsForGood(s, steps, t, r);
    StuckFails(t.w, r);
  }
}
