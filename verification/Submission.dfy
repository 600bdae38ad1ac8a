/**
 Submitting a job exactly once (apps/api/app/submit.py, apps/api/app/idempotency.py) from the
 routes that create jobs (apps/api/app/routes/audio.py, plans.py, publish.py). Many requests
 run at once; each advances one database transaction or one enqueue at a time, and may die in
 between.
 */
module Submission {
  import opened Wrappers

  type IdemKey = string
  type EpisodeId = string
  type AudioId = nat
  type Checksum = string
  type JobId = nat
  type RequestId = nat

  const RETENTION := 24 * 60 * 60

  datatype Kind = Transcribe | Plan | Pack

  datatype Route = Route(kind: Kind, episode: EpisodeId)

  /** What the fingerprint tells apart. An upload's storage key stands for its audio file. */
  datatype Body = Completed(audio: AudioId, checksum: Checksum) | Nothing

  datatype Request =
    | Complete(key: IdemKey, episode: EpisodeId, audio: AudioId, checksum: Checksum)
    | Generate(key: IdemKey, episode: EpisodeId, pack: bool)

  function RouteOf(r: Request): Route {
    Route(if r.Complete? then Transcribe else if r.pack then Pack else Plan, r.episode)
  }

  function BodyOf(r: Request): Body { if r.Complete? then Completed(r.audio, r.checksum) else Nothing }

  datatype JobKey = OfAudio(audio: AudioId) | OfKey(key: IdemKey)

  /** One transcribe job per audio file; a plan or pack job per idempotency key. */
  function JobKeyOf(key: IdemKey, body: Body): JobKey {
    match body
    case Completed(audio, _) => OfAudio(audio)
    case Nothing => OfKey(key)
  }

  datatype Job = Job(kind: Kind, key: JobKey, episode: EpisodeId)

  datatype Response = Response(job: Option<JobId>, replayed: bool)

  datatype Record = Record(body: Body, response: Response, created: int)

  datatype File = File(episode: EpisodeId, rough: bool, ready: bool)

  /** The tables, the object store as head() sees it, and the messages sent by the API. A
      job's id is its place in `jobs`. */
  datatype World = World(
    files: map<AudioId, File>, objects: map<AudioId, Option<Checksum>>, transcribed: set<EpisodeId>,
    jobs: seq<Job>, records: map<(IdemKey, Route), Record>, sent: seq<JobId>, now: int)

  datatype Refusal = KeyRequired | KeyReused | NoObject | ChecksumMismatch | NoUpload | NoTranscript | ServerError

  datatype Answer = Accepted(response: Response) | Refused(why: Refusal)

  // ---- one request

  /** Where a request is. `stale` is the expired record that its open transaction deletes. */
  datatype Pc =
    | Started
    | Looked(stale: Option<Record>)
    | Marked(stale: Option<Record>)
    | Created(job: JobId)
    | Telling(response: Response, stale: Option<Record>)

  datatype Outcome = Next(pc: Pc) | Done(answer: Answer)

  function At(r: Request): (IdemKey, Route) { (r.key, RouteOf(r)) }

  function Expired(rec: Record, now: int): bool { rec.created < now - RETENTION }

  /** The records once the transaction's pending delete is committed. */
  function Purged(w: World, r: Request, stale: Option<Record>): map<(IdemKey, Route), Record> {
    if stale.Some? && At(r) in w.records && w.records[At(r)] == stale.value then w.records - {At(r)} else w.records
  }

  function Find(jobs: seq<Job>, kind: Kind, key: JobKey): Option<JobId> {
    if jobs == [] then None
    else if jobs[|jobs| - 1].kind == kind && jobs[|jobs| - 1].key == key then Some(|jobs| - 1)
    else Find(jobs[..|jobs| - 1], kind, key)
  }

  function Look(w: World, r: Request): Outcome {
    if r.Generate? && r.episode !in w.transcribed then Done(Refused(NoTranscript))
    else if r.key == "" then Done(Refused(KeyRequired))
    else if At(r) !in w.records then Next(Looked(None))
    else
      var rec := w.records[At(r)];
      if Expired(rec, w.now) then Next(Looked(Some(rec)))
      else if rec.body != BodyOf(r) then Done(Refused(KeyReused))
      else Done(Accepted(rec.response))
  }

  function Mark(w: World, r: Request, stale: Option<Record>): (World, Outcome) {
    if r.Generate? then (w, Next(Marked(stale)))
    else if r.audio !in w.objects then (w, Done(Refused(NoObject)))
    else if w.objects[r.audio].Some? && w.objects[r.audio].value != r.checksum then (w, Done(Refused(ChecksumMismatch)))
    else if r.audio !in w.files || w.files[r.audio].episode != r.episode then (w, Done(Refused(NoUpload)))
    else if w.files[r.audio].ready then (w, Next(Marked(stale)))
    else (w.(files := w.files[r.audio := w.files[r.audio].(ready := true)], records := Purged(w, r, stale)), Next(Marked(None)))
  }

  /** The final mix queues nothing. */
  predicate StoresOnly(w: World, r: Request) { r.Complete? && r.audio in w.files && !w.files[r.audio].rough }

  function Submit(w: World, r: Request, stale: Option<Record>): (World, Outcome) {
    if StoresOnly(w, r) then (w, Next(Telling(Response(None, false), stale)))
    else
      var kind, key := RouteOf(r).kind, JobKeyOf(r.key, BodyOf(r));
      match Find(w.jobs, kind, key)
      case Some(job) => (w, Next(Telling(Response(Some(job), true), None)))
      case None =>
        (w.(jobs := w.jobs + [Job(kind, key, r.episode)], records := Purged(w, r, stale)), Next(Created(|w.jobs|)))
  }

  function Remember(w: World, r: Request, response: Response, stale: Option<Record>): (World, Outcome) {
    var records := Purged(w, r, stale);
    if At(r) in records then (w, Done(Refused(ServerError)))
    else (w.(records := records[At(r) := Record(BodyOf(r), response, w.now)]), Done(Accepted(response)))
  }

  function Advance(w: World, r: Request, pc: Pc): (World, Outcome) {
    match pc
    case Started => (w, Look(w, r))
    case Looked(stale) => Mark(w, r, stale)
    case Marked(stale) => Submit(w, r, stale)
    case Created(job) => (w.(sent := w.sent + [job]), Next(Telling(Response(Some(job), false), None)))
    case Telling(response, stale) => Remember(w, r, response, stale)
  }

  // ---- many requests

  datatype Flight = Flight(r: Request, pc: Pc)

  datatype Reply = Reply(r: Request, answer: Answer)

  datatype State = State(w: World, requests: map<RequestId, Flight>, replies: seq<Reply>)

  datatype Step =
    | Begin(q: RequestId, r: Request)
    | Go(q: RequestId)
    | Crash(q: RequestId)
    | Target(a: AudioId, episode: EpisodeId, rough: bool)
    | Put(a: AudioId, checksum: Option<Checksum>)
    | Transcription(e: EpisodeId)
    | Tick(seconds: nat)

  predicate Enabled(s: State, step: Step) {
    match step
    case Begin(q, _) => q !in s.requests
    case Go(q) => q in s.requests
    case Crash(q) => q in s.requests
    case Target(a, _, _) => a !in s.w.files
    case _ => true
  }

  function Settle(s: State, q: RequestId, r: Request, next: (World, Outcome)): State {
    match next.1
    case Next(pc) => State(next.0, s.requests[q := Flight(r, pc)], s.replies)
    case Done(answer) => State(next.0, s.requests - {q}, s.replies + [Reply(r, answer)])
  }

  function After(s: State, step: Step): State
    requires Enabled(s, step)
  {
    match step
    case Begin(q, r) => s.(requests := s.requests[q := Flight(r, Started)])
    case Go(q) => Settle(s, q, s.requests[q].r, Advance(s.w, s.requests[q].r, s.requests[q].pc))
    case Crash(q) => s.(requests := s.requests - {q})
    case Target(a, e, rough) => s.(w := s.w.(files := s.w.files[a := File(e, rough, false)]))
    case Put(a, c) => s.(w := s.w.(objects := s.w.objects[a := c]))
    case Transcription(e) => s.(w := s.w.(transcribed := s.w.transcribed + {e}))
    case Tick(seconds) => s.(w := s.w.(now := s.w.now + seconds))
  }

  ghost predicate Runs(s: State, steps: seq<Step>, t: State)
    decreases |steps|
  {
    if steps == [] then s == t else Enabled(s, steps[0]) && Runs(After(s, steps[0]), steps[1..], t)
  }

  ghost predicate Fresh(s: State) {
    && s.w.jobs == [] && s.w.records == map[] && s.w.sent == [] && s.requests == map[] && s.replies == []
  }

  // ---- the invariant

  lemma {:induction false} FindMeans(jobs: seq<Job>, kind: Kind, key: JobKey)
    ensures var found := Find(jobs, kind, key);
            if found.Some? then found.value < |jobs| && jobs[found.value].kind == kind && jobs[found.value].key == key
            else forall i :: 0 <= i < |jobs| ==> jobs[i].kind != kind || jobs[i].key != key
  {
    if jobs != [] {
      FindMeans(jobs[..|jobs| - 1], kind, key);
    }
  }

  /** The unique constraint on (kind, idempotency_key). */
  predicate JobsUnique(jobs: seq<Job>) {
    forall i, j :: 0 <= i < j < |jobs| ==> jobs[i].kind != jobs[j].kind || jobs[i].key != jobs[j].key
  }

  /** The response names the job of this route and body. */
  predicate Names(jobs: seq<Job>, key: IdemKey, kind: Kind, body: Body, response: Response) {
    response.job.Some? ==>
      && response.job.value < |jobs|
      && jobs[response.job.value].kind == kind
      && jobs[response.job.value].key == JobKeyOf(key, body)
  }

  predicate NamesIts(jobs: seq<Job>, r: Request, response: Response) {
    Names(jobs, r.key, RouteOf(r).kind, BodyOf(r), response)
  }

  /** A response that says the job was created is only given once its message is sent. */
  predicate Announced(w: World, response: Response) {
    response.job.Some? && !response.replayed ==> response.job.value in w.sent
  }

  predicate FlightHolds(w: World, f: Flight) {
    match f.pc
    case Created(job) => NamesIts(w.jobs, f.r, Response(Some(job), false)) && job < |w.jobs| && job !in w.sent
    case Telling(response, _) => NamesIts(w.jobs, f.r, response) && Announced(w, response)
    case _ => true
  }

  predicate SameCreation(f: Flight, g: Flight) { f.pc.Created? && f.pc == g.pc }

  predicate FlightsHold(s: State) {
    && (forall q :: q in s.requests ==> FlightHolds(s.w, s.requests[q]))
    && (forall p, q :: p in s.requests && q in s.requests && SameCreation(s.requests[p], s.requests[q]) ==> p == q)
  }

  predicate RecordsHold(w: World) {
    forall k :: k in w.records ==>
      Names(w.jobs, k.0, k.1.kind, w.records[k].body, w.records[k].response) && Announced(w, w.records[k].response)
  }

  predicate RepliesHold(s: State) {
    forall i :: 0 <= i < |s.replies| && s.replies[i].answer.Accepted? ==>
      NamesIts(s.w.jobs, s.replies[i].r, s.replies[i].answer.response) && Announced(s.w, s.replies[i].answer.response)
  }

  predicate SentOnce(w: World) {
    && (forall i, j :: 0 <= i < j < |w.sent| ==> w.sent[i] != w.sent[j])
    && (forall i :: 0 <= i < |w.sent| ==> w.sent[i] < |w.jobs|)
  }

  predicate Inv(s: State) {
    JobsUnique(s.w.jobs) && SentOnce(s.w) && RecordsHold(s.w) && FlightsHold(s) && RepliesHold(s)
  }

  /** What is right about a response stays right while jobs and messages are only added. */
  predicate Grows(w: World, v: World) {
    w.jobs <= v.jobs && w.sent <= v.sent
  }

  lemma StaysNamed(w: World, v: World, key: IdemKey, kind: Kind, body: Body, response: Response)
    requires Grows(w, v) && Names(w.jobs, key, kind, body, response) && Announced(w, response)
    ensures Names(v.jobs, key, kind, body, response) && Announced(v, response)
  {
    if response.job.Some? && !response.replayed {
      var i :| 0 <= i < |w.sent| && w.sent[i] == response.job.value;
      assert v.sent[i] == w.sent[i];
    }
  }

  /** Records that were there stay right, and so does a new one that names its job. */
  lemma RecordsStayRight(w: World, v: World, r: Request, response: Response)
    requires RecordsHold(w) && Grows(w, v) && NamesIts(v.jobs, r, response) && Announced(v, response)
    requires forall k :: k in v.records ==>
               (k in w.records && v.records[k] == w.records[k]) || (k == At(r) && v.records[k] == Record(BodyOf(r), response, v.now))
    ensures RecordsHold(v)
  {
    forall k | k in v.records
      ensures Names(v.jobs, k.0, k.1.kind, v.records[k].body, v.records[k].response) && Announced(v, v.records[k].response)
    {
      if k in w.records && v.records[k] == w.records[k] {
        StaysNamed(w, v, k.0, k.1.kind, w.records[k].body, w.records[k].response);
      }
    }
  }

  /** One request's step keeps the tables right, and hands on a pc or an answer that is right. */
  lemma AdvanceKeeps(w: World, r: Request, pc: Pc)
    requires JobsUnique(w.jobs) && SentOnce(w) && RecordsHold(w) && FlightHolds(w, Flight(r, pc))
    ensures var (v, out) := Advance(w, r, pc);
            && JobsUnique(v.jobs) && SentOnce(v) && RecordsHold(v) && Grows(w, v)
            && (out.Next? ==> FlightHolds(v, Flight(r, out.pc)))
            && (out.Done? && out.answer.Accepted? ==> NamesIts(v.jobs, r, out.answer.response) && Announced(v, out.answer.response))
  {
    var (v, out) := Advance(w, r, pc);
    if pc.Marked? {
      FindMeans(w.jobs, RouteOf(r).kind, JobKeyOf(r.key, BodyOf(r)));
    }
    hide Find, RecordsHold;
    var response := if pc.Telling? then pc.response else Response(None, false);
    RecordsStayRight(w, v, r, response);
    RecordedIsRight(w, r);
  }

  lemma RecordedIsRight(w: World, r: Request)
    requires RecordsHold(w)
    ensures At(r) in w.records && w.records[At(r)].body == BodyOf(r) ==>
              NamesIts(w.jobs, r, w.records[At(r)].response) && Announced(w, w.records[At(r)].response)
  {
  }

  lemma GoKeeps(s: State, q: RequestId)
    requires Inv(s) && q in s.requests
    ensures Inv(After(s, Go(q)))
  {
    hide Advance, JobsUnique, SentOnce;
    var f := s.requests[q];
    var (v, out) := Advance(s.w, f.r, f.pc);
    AdvanceKeeps(s.w, f.r, f.pc);
    var t := After(s, Go(q));
    forall p | p in t.requests && p != q ensures FlightHolds(v, t.requests[p]) {
      OtherFlightHolds(s, q, p);
    }
    forall i | 0 <= i < |t.replies| && t.replies[i].answer.Accepted?
      ensures NamesIts(v.jobs, t.replies[i].r, t.replies[i].answer.response) && Announced(v, t.replies[i].answer.response)
    {
      if i < |s.replies| {
        var reply := s.replies[i];
        StaysNamed(s.w, v, reply.r.key, RouteOf(reply.r).kind, BodyOf(reply.r), reply.answer.response);
      }
    }
    forall p | p in t.requests && p != q && q in t.requests ensures !SameCreation(t.requests[p], t.requests[q]) {
      NewCreationIsOwn(s, q, p);
    }
  }

  lemma OtherFlightHolds(s: State, q: RequestId, p: RequestId)
    requires Inv(s) && q in s.requests && p in s.requests && p != q
    requires Grows(s.w, Advance(s.w, s.requests[q].r, s.requests[q].pc).0)
    ensures FlightHolds(Advance(s.w, s.requests[q].r, s.requests[q].pc).0, s.requests[p])
  {
    var f := s.requests[p];
    var v := Advance(s.w, s.requests[q].r, s.requests[q].pc).0;
    assert FlightHolds(s.w, f);
    match f.pc
    case Created(job) =>
      assert !SameCreation(s.requests[q], f);
      assert job !in v.sent;
    case Telling(response, _) =>
      StaysNamed(s.w, v, f.r.key, RouteOf(f.r).kind, BodyOf(f.r), response);
    case _ =>
  }

  lemma NewCreationIsOwn(s: State, q: RequestId, p: RequestId)
    requires Inv(s) && q in s.requests && p in s.requests && p != q
    requires q in After(s, Go(q)).requests
    ensures !SameCreation(s.requests[p], After(s, Go(q)).requests[q])
  {
    assert FlightHolds(s.w, s.requests[p]);
  }

  lemma StepKeeps(s: State, step: Step)
    requires Inv(s) && Enabled(s, step)
    ensures Inv(After(s, step))
  {
    match step
    case Go(q) => GoKeeps(s, q);
    case _ =>
      var t := After(s, step);
      assert forall q :: q in t.requests && q in s.requests && t.requests[q] == s.requests[q] ==> FlightHolds(s.w, s.requests[q]);
  }

  lemma {:induction false} RunKeeps(s: State, steps: seq<Step>, t: State)
    requires Inv(s) && Runs(s, steps, t)
    ensures Inv(t)
    decreases |steps|
  {
    hide Inv, After, Enabled;
    if steps != [] {
      StepKeeps(s, steps[0]);
      RunKeeps(After(s, steps[0]), steps[1..], t);
    }
  }

  // ---- exactly once

  predicate JobFor(job: Job, a: AudioId) { job.kind == Transcribe && job.key == OfAudio(a) }

  /** A 202 for completing the upload of `a` that names a job. */
  predicate Names202(reply: Reply, a: AudioId) {
    reply.r.Complete? && reply.r.audio == a && reply.answer.Accepted? && reply.answer.response.job.Some?
  }

  /** Over any interleaving of requests, retries and crashes, however old the idempotency
      records get: at most one job and one message for each audio file; every 202 for the file
      names that job; and one that created it is only given once its message is sent. */
  lemma OneJobPerAudio(s: State, steps: seq<Step>, t: State, a: AudioId)
    requires Fresh(s) && Runs(s, steps, t)
    ensures forall i, j :: 0 <= i < |t.w.jobs| && 0 <= j < |t.w.jobs| && JobFor(t.w.jobs[i], a) && JobFor(t.w.jobs[j], a) ==> i == j
    ensures forall i :: 0 <= i < |t.w.sent| ==> t.w.sent[i] < |t.w.jobs|
    ensures forall i, j :: 0 <= i < |t.w.sent| && 0 <= j < |t.w.sent| ==>
              JobFor(t.w.jobs[t.w.sent[i]], a) && JobFor(t.w.jobs[t.w.sent[j]], a) ==> i == j
    ensures forall i :: 0 <= i < |t.replies| && Names202(t.replies[i], a) ==>
              var response := t.replies[i].answer.response;
              && response.job.value < |t.w.jobs| && JobFor(t.w.jobs[response.job.value], a)
              && (!response.replayed ==> response.job.value in t.w.sent)
  {
    RunKeeps(s, steps, t);
    forall i | 0 <= i < |t.replies| && Names202(t.replies[i], a)
      ensures var response := t.replies[i].answer.response;
              && response.job.value < |t.w.jobs| && JobFor(t.w.jobs[response.job.value], a)
              && (!response.replayed ==> response.job.value in t.w.sent)
    {
      assert NamesIts(t.w.jobs, t.replies[i].r, t.replies[i].answer.response);
    }
    forall i, j | 0 <= i < |t.w.sent| && 0 <= j < |t.w.sent|
                  && JobFor(t.w.jobs[t.w.sent[i]], a) && JobFor(t.w.jobs[t.w.sent[j]], a)
      ensures i == j
    {
      assert t.w.sent[i] == t.w.sent[j];
    }
  }

  // ---- within the retention

  /** A record that some transaction is deleting has expired. */
  predicate StaleExpired(s: State) {
    forall q :: q in s.requests ==> StaleOf(s.requests[q].pc).Some? ==> Expired(StaleOf(s.requests[q].pc).value, s.w.now)
  }

  function StaleOf(pc: Pc): Option<Record> {
    match pc
    case Looked(stale) => stale
    case Marked(stale) => stale
    case Telling(_, stale) => stale
    case _ => None
  }

  lemma StepKeepsRecord(s: State, step: Step, k: (IdemKey, Route))
    requires StaleExpired(s) && Enabled(s, step)
    ensures StaleExpired(After(s, step)) && After(s, step).w.now >= s.w.now
    ensures k in s.w.records && !Expired(s.w.records[k], s.w.now) ==>
              k in After(s, step).w.records && After(s, step).w.records[k] == s.w.records[k]
  {
    hide Find;
    if step.Go? {
      assert StaleOf(s.requests[step.q].pc).Some? ==> Expired(StaleOf(s.requests[step.q].pc).value, s.w.now);
    }
  }

  /** Whatever else happens, a record stays what it is until it is 24 hours old. */
  lemma {:induction false} RecordKept(s: State, steps: seq<Step>, t: State, k: (IdemKey, Route))
    requires StaleExpired(s) && Runs(s, steps, t)
    requires k in s.w.records && !Expired(s.w.records[k], t.w.now)
    ensures s.w.now <= t.w.now && k in t.w.records && t.w.records[k] == s.w.records[k]
    decreases |steps|
  {
    hide After, Enabled, StaleExpired;
    if steps != [] {
      ClockRuns(s, steps, t);
      StepKeepsRecord(s, steps[0], k);
      RecordKept(After(s, steps[0]), steps[1..], t, k);
    }
  }

  lemma {:induction false} ClockRuns(s: State, steps: seq<Step>, t: State)
    requires Runs(s, steps, t)
    ensures s.w.now <= t.w.now
    decreases |steps|
  {
    if steps != [] {
      ClockRuns(After(s, steps[0]), steps[1..], t);
    }
  }

  /** So a request that was remembered is answered again, through any run, with the very same
      response for 24 hours; the same key with another body is refused. */
  lemma ReplayedForADay(s: State, steps: seq<Step>, t: State, r: Request, again: Request)
    requires StaleExpired(s) && Runs(s, steps, t)
    requires At(r) in s.w.records && s.w.records[At(r)].body == BodyOf(r) && !Expired(s.w.records[At(r)], t.w.now)
    requires At(again) == At(r) && r.key != "" && (r.Generate? ==> r.episode in t.w.transcribed)
    ensures Look(t.w, again) == Done(if BodyOf(again) == BodyOf(r) then Accepted(s.w.records[At(r)].response) else Refused(KeyReused))
  {
    RecordKept(s, steps, t, At(r));
  }

  // ---- one request on its own

  function Rank(pc: Pc): nat {
    match pc
    case Started => 4
    case Looked(_) => 3
    case Marked(_) => 2
    case Created(_) => 1
    case Telling(_, _) => 0
  }

  /** A request that nothing interrupts. */
  function Finish(w: World, r: Request, pc: Pc): (World, Answer)
    decreases Rank(pc)
  {
    var next := Advance(w, r, pc);
    match next.1
    case Done(answer) => (next.0, answer)
    case Next(pc') => Finish(next.0, r, pc')
  }

  function Call(w: World, r: Request): (World, Answer) { Finish(w, r, Started) }

  /** The checks that come before any job is created. */
  predicate Passes(w: World, r: Request) {
    && r.key != ""
    && (r.Generate? ==> r.episode in w.transcribed)
    && (r.Complete? ==>
          && r.audio in w.objects && (w.objects[r.audio].Some? ==> w.objects[r.audio].value == r.checksum)
          && r.audio in w.files && w.files[r.audio].episode == r.episode)
  }

  /** The request's only commit before the job's would be marking its file ready. */
  predicate CommitsFirst(w: World, r: Request) { r.Complete? && r.audio in w.files && !w.files[r.audio].ready }

  /** The world with the request's job created and announced. */
  function Announce(w: World, r: Request, stale: Option<Record>): World {
    w.(jobs := w.jobs + [Job(RouteOf(r).kind, JobKeyOf(r.key, BodyOf(r)), r.episode)],
       records := Purged(w, r, stale), sent := w.sent + [|w.jobs|])
  }

  function FoundFor(w: World, r: Request): Option<JobId> { Find(w.jobs, RouteOf(r).kind, JobKeyOf(r.key, BodyOf(r))) }

  function Told(next: (World, Outcome)): (World, Answer)
    requires next.1.Done?
  {
    (next.0, next.1.answer)
  }

  lemma FinishMarked(w: World, r: Request, stale: Option<Record>)
    ensures Finish(w, r, Marked(stale)) == Told(
              if StoresOnly(w, r) then Remember(w, r, Response(None, false), stale)
              else if FoundFor(w, r).Some? then Remember(w, r, Response(FoundFor(w, r), true), None)
              else Remember(Announce(w, r, stale), r, Response(Some(|w.jobs|), false), None))
  {
    hide Find;
    if !StoresOnly(w, r) && FoundFor(w, r).None? {
      var made := Submit(w, r, stale).0;
      assert Finish(w, r, Marked(stale)) == Finish(made, r, Created(|w.jobs|));
      assert Announce(w, r, stale) == Advance(made, r, Created(|w.jobs|)).0;
      assert Finish(made, r, Created(|w.jobs|))
          == Finish(Announce(w, r, stale), r, Telling(Response(Some(|w.jobs|), false), None));
    }
  }

  /** A request that passes reaches its submission with the record it found expired still to be
      deleted, unless marking the file ready committed that deletion. */
  lemma CallMarked(w: World, r: Request)
    requires Look(w, r).Next?
    ensures var stale := if At(r) in w.records then Some(w.records[At(r)]) else None;
            if Passes(w, r) then
              Call(w, r) == Finish(Mark(w, r, stale).0, r, Marked(if CommitsFirst(w, r) then None else stale))
            else
              var out := Mark(w, r, stale).1;
              out.Done? && out.answer.Refused? && out.answer.why != ServerError && Call(w, r) == (w, out.answer)
  {
    hide Find, Submit, Remember;
    var stale := if At(r) in w.records then Some(w.records[At(r)]) else None;
    assert Call(w, r) == Finish(w, r, Looked(stale));
    var (v, out) := Mark(w, r, stale);
    assert out.Next? ==> Finish(w, r, Looked(stale)) == Finish(v, r, out.pc);
  }

  /** Uninterrupted, a request fails on its own record when that has expired: the rollback that
      finds the existing job also undoes the deletion of the record, so the response cannot be
      remembered. That happens if and only if the job is there already and nothing was committed
      in between. */
  lemma CallFailsIff(w: World, r: Request)
    ensures Call(w, r).1 == Refused(ServerError) <==>
              && Passes(w, r)
              && At(r) in w.records && Expired(w.records[At(r)], w.now)
              && !CommitsFirst(w, r) && !StoresOnly(w, r)
              && Find(w.jobs, RouteOf(r).kind, JobKeyOf(r.key, BodyOf(r))).Some?
    ensures Call(w, r).1 == Refused(ServerError) ==> Call(w, r).0 == w
  {
    hide Find;
    if Look(w, r).Next? {
      hide Finish;
      CallMarked(w, r);
      var stale := if At(r) in w.records then Some(w.records[At(r)]) else None;
      FinishMarked(Mark(w, r, stale).0, r, if CommitsFirst(w, r) then None else stale);
    } else {
      assert Call(w, r) == (w, Look(w, r).answer);
    }
  }

  /** Uninterrupted, a request that passes and has no record is accepted; it announces its job if and only
      if no earlier request created it. */
  lemma FirstTimeAccepted(w: World, r: Request)
    requires Passes(w, r) && At(r) !in w.records && !StoresOnly(w, r)
    ensures var (v, answer) := Call(w, r);
            && answer == Accepted(Response(Some(if FoundFor(w, r).Some? then FoundFor(w, r).value else |w.jobs|), FoundFor(w, r).Some?))
            && v.sent == w.sent + (if FoundFor(w, r).Some? then [] else [|w.jobs|])
            && At(r) in v.records && v.records[At(r)] == Record(BodyOf(r), answer.response, w.now)
  {
    hide Find, Finish;
    CallMarked(w, r);
    FinishMarked(Mark(w, r, None).0, r, None);
  }

  /** A plan or pack job is unique by the idempotency key alone. So over any run, in any 202 to
      a plan or pack request, at once or replayed, the job is the request's own episode's if and
      only if no other episode's job of the kind has the key. */
  lemma KeyIsPerKind(s: State, steps: seq<Step>, t: State, i: nat)
    requires Fresh(s) && Runs(s, steps, t) && i < |t.replies| && t.replies[i].r.Generate?
    requires t.replies[i].answer.Accepted? && t.replies[i].answer.response.job.Some?
    ensures var r, job := t.replies[i].r, t.replies[i].answer.response.job.value;
            && job < |t.w.jobs|
            && (t.w.jobs[job].episode == r.episode
                <==> forall n :: 0 <= n < |t.w.jobs| && t.w.jobs[n].kind == RouteOf(r).kind && t.w.jobs[n].key == OfKey(r.key)
                                 ==> t.w.jobs[n].episode == r.episode)
  {
    RunKeeps(s, steps, t);
    assert NamesIts(t.w.jobs, t.replies[i].r, t.replies[i].answer.response);
  }

  // ---- the routes

  /** The API over one session: `records` is what the open transaction sees of the idempotency
      records, `committed` is what a rollback goes back to. */
  class Api {
    var files: map<AudioId, File>
    var objects: map<AudioId, Option<Checksum>>
    var transcribed: set<EpisodeId>
    var jobs: seq<Job>
    var records: map<(IdemKey, Route), Record>
    var committed: map<(IdemKey, Route), Record>
    var sent: seq<JobId>
    var now: int

    ghost function View(): World
      reads this
    {
      World(files, objects, transcribed, jobs, committed, sent, now)
    }

    ghost predicate Idle()
      reads this
    {
      records == committed
    }

    /** The stored response; an expired record is deleted, uncommitted, and counts as none. */
    method Lookup(r: Request) returns (stored: Result<Option<Response>, Refusal>)
      requires Idle()
      modifies this`records
      ensures var live := At(r) in committed && !Expired(committed[At(r)], now);
              stored == if !live then Ok(None)
                        else if committed[At(r)].body != BodyOf(r) then Err(KeyReused)
                        else Ok(Some(committed[At(r)].response))
      ensures records == if At(r) in committed && Expired(committed[At(r)], now) then committed - {At(r)} else committed
    {
      if At(r) !in records {
        return Ok(None);
      }
      var rec := records[At(r)];
      if rec.created < now - RETENTION {
        records := records - {At(r)};
        return Ok(None);
      }
      if rec.body != BodyOf(r) {
        return Err(KeyReused);
      }
      return Ok(Some(rec.response));
    }

    /** Inserts the record and commits; the primary key may already be taken. */
    method Remember(r: Request, response: Response) returns (answer: Answer)
      modifies this`records, this`committed
      ensures Idle()
      ensures At(r) in old(records) ==> answer == Refused(ServerError) && committed == old(committed)
      ensures At(r) !in old(records) ==>
                answer == Accepted(response) && committed == old(records)[At(r) := Record(BodyOf(r), response, now)]
    {
      if At(r) in records {
        records := committed;
        return Refused(ServerError);
      }
      records := records[At(r) := Record(BodyOf(r), response, now)];
      committed := records;
      return Accepted(response);
    }

    /** The row is committed first, the message sent after, the response remembered last. */
    method SubmitJob(r: Request, ghost stale: Option<Record>) returns (answer: Answer)
      requires !StoresOnly(View(), r) && records == Purged(View(), r, stale)
      modifies this`jobs, this`records, this`committed, this`sent
      ensures Idle()
      ensures (View(), answer) == Finish(old(View()), r, Marked(stale))
    {
      hide Find, Finish;
      FinishMarked(View(), r, stale);
      var kind, key := RouteOf(r).kind, JobKeyOf(r.key, BodyOf(r));
      var found := Find(jobs, kind, key);
      var response;
      if found.None? {
        jobs := jobs + [Job(kind, key, r.episode)];
        committed := records;
        sent := sent + [|jobs| - 1];
        response := Response(Some(|jobs| - 1), false);
      } else {
        records := committed;
        response := Response(found, true);
      }
      answer := Remember(r, response);
    }

    method CompleteUpload(r: Request) returns (answer: Answer)
      requires r.Complete? && Idle()
      modifies this
      ensures Idle()
      ensures (View(), answer) == Call(old(View()), r)
    {
      hide Find, Finish;
      CallRefused(View(), r);
      if r.key == "" {
        return Refused(KeyRequired);
      }
      var stored := Lookup(r);
      if stored.Err? {
        return Refused(stored.error);
      }
      if stored.value.Some? {
        return Accepted(stored.value.value);
      }
      CallMarked(View(), r);
      ghost var stale := if At(r) in committed then Some(committed[At(r)]) else None;
      if r.audio !in objects {
        records := committed;
        return Refused(NoObject);
      }
      if objects[r.audio].Some? && objects[r.audio].value != r.checksum {
        records := committed;
        return Refused(ChecksumMismatch);
      }
      if r.audio !in files || files[r.audio].episode != r.episode {
        records := committed;
        return Refused(NoUpload);
      }
      if !files[r.audio].ready {
        files := files[r.audio := files[r.audio].(ready := true)];
        committed := records;
        stale := None;
      }
      if !files[r.audio].rough {
        FinishMarked(View(), r, stale);
        answer := Remember(r, Response(None, false));
      } else {
        answer := SubmitJob(r, stale);
      }
    }

    method GenerateJob(r: Request) returns (answer: Answer)
      requires r.Generate? && Idle()
      modifies this
      ensures Idle()
      ensures (View(), answer) == Call(old(View()), r)
    {
      hide Find, Finish;
      CallRefused(View(), r);
      if r.episode !in transcribed {
        return Refused(NoTranscript);
      }
      if r.key == "" {
        return Refused(KeyRequired);
      }
      var stored := Lookup(r);
      if stored.Err? {
        return Refused(stored.error);
      }
      if stored.value.Some? {
        return Accepted(stored.value.value);
      }
      CallMarked(View(), r);
      answer := SubmitJob(r, if At(r) in committed then Some(committed[At(r)]) else None);
    }
  }

  lemma CallRefused(w: World, r: Request)
    ensures Look(w, r).Done? ==> Call(w, r) == (w, Look(w, r).answer)
  {
  }
}
