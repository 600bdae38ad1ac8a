/**
 What a completed upload leaves behind (apps/api/app/routes/audio.py): the file is ready, for
 the worker that will look (edlo/jobs/transcribe.py:39), whenever a completion was accepted or
 a transcription was submitted. Over whole runs of interleaved requests, and exactly for one
 request on its own.
 */
module Completions {
  import opened Wrappers
  import opened Submission

  /** The file is there, its bytes are complete, and it is this episode's. */
  predicate ReadyFor(w: World, a: AudioId, e: EpisodeId) {
    a in w.files && w.files[a].ready && w.files[a].episode == e
  }

  // ---- over runs

  predicate ReadyRequest(w: World, r: Request) { r.Complete? ==> ReadyFor(w, r.audio, r.episode) }

  predicate FlightReady(w: World, f: Flight) {
    f.pc.Marked? || f.pc.Created? || f.pc.Telling? ==> ReadyRequest(w, f.r)
  }

  predicate JobReady(w: World, job: Job) {
    job.key.OfAudio? ==> ReadyFor(w, job.key.audio, job.episode) && w.files[job.key.audio].rough
  }

  predicate RecordReady(w: World, k: (IdemKey, Route)) {
    k in w.records && w.records[k].body.Completed? ==> ReadyFor(w, w.records[k].body.audio, k.1.episode)
  }

  ghost predicate AllReady(s: State) {
    && (forall q :: q in s.requests ==> FlightReady(s.w, s.requests[q]))
    && (forall i :: 0 <= i < |s.w.jobs| ==> JobReady(s.w, s.w.jobs[i]))
    && (forall k :: RecordReady(s.w, k))
    && (forall i :: 0 <= i < |s.replies| && s.replies[i].answer.Accepted? ==> ReadyRequest(s.w, s.replies[i].r))
  }

  /** Files are never taken back: what is ready stays so, for the same episode. */
  predicate FilesGrow(w: World, v: World) {
    forall a :: a in w.files ==>
      && a in v.files && v.files[a].episode == w.files[a].episode && v.files[a].rough == w.files[a].rough
      && (w.files[a].ready ==> v.files[a].ready)
  }

  lemma StepGrowsFiles(s: State, step: Step)
    requires Enabled(s, step)
    ensures FilesGrow(s.w, After(s, step).w)
  {
    hide Find;
  }

  /** One request's step: what it adds is for files that are ready. */
  lemma AdvanceReady(w: World, r: Request, pc: Pc)
    requires FlightReady(w, Flight(r, pc))
    requires forall i :: 0 <= i < |w.jobs| ==> JobReady(w, w.jobs[i])
    requires forall k :: RecordReady(w, k)
    ensures var (v, out) := Advance(w, r, pc);
            && FilesGrow(w, v)
            && (out.Next? ==> FlightReady(v, Flight(r, out.pc)))
            && (out.Done? && out.answer.Accepted? ==> ReadyRequest(v, r))
            && (forall i :: 0 <= i < |v.jobs| ==> JobReady(v, v.jobs[i]))
            && (forall k :: RecordReady(v, k))
  {
    hide Find;
    var v := Advance(w, r, pc).0;
    assert RecordReady(w, At(r));
    forall i | 0 <= i < |v.jobs| ensures JobReady(v, v.jobs[i]) {
      assert i < |w.jobs| ==> v.jobs[i] == w.jobs[i] && JobReady(w, w.jobs[i]);
    }
    forall k ensures RecordReady(v, k) {
      assert RecordReady(w, k);
    }
  }

  lemma StaysReady(w: World, v: World, r: Request)
    requires FilesGrow(w, v) && ReadyRequest(w, r)
    ensures ReadyRequest(v, r)
  {
  }

  lemma GoReady(s: State, q: RequestId)
    requires AllReady(s) && q in s.requests
    ensures AllReady(After(s, Go(q)))
  {
    hide Advance, JobReady, RecordReady, FilesGrow;
    var f, t := s.requests[q], After(s, Go(q));
    AdvanceReady(s.w, f.r, f.pc);
    forall p | p in t.requests && p != q ensures FlightReady(t.w, t.requests[p]) {
      assert FlightReady(s.w, s.requests[p]);
      if t.requests[p].pc.Marked? || t.requests[p].pc.Created? || t.requests[p].pc.Telling? {
        StaysReady(s.w, t.w, t.requests[p].r);
      }
    }
    forall i | 0 <= i < |t.replies| && t.replies[i].answer.Accepted? ensures ReadyRequest(t.w, t.replies[i].r) {
      if i < |s.replies| {
        StaysReady(s.w, t.w, s.replies[i].r);
      }
    }
  }

  lemma StepReady(s: State, step: Step)
    requires AllReady(s) && Enabled(s, step)
    ensures AllReady(After(s, step))
  {
    if step.Go? {
      GoReady(s, step.q);
    } else {
      var t := After(s, step);
      forall q | q in t.requests ensures FlightReady(t.w, t.requests[q]) {
        assert q in s.requests ==> FlightReady(s.w, s.requests[q]);
      }
      forall i | 0 <= i < |t.w.jobs| ensures JobReady(t.w, t.w.jobs[i]) {
        assert JobReady(s.w, s.w.jobs[i]);
      }
      forall k ensures RecordReady(t.w, k) {
        assert RecordReady(s.w, k);
      }
    }
  }

  lemma {:induction false} RunReady(s: State, steps: seq<Step>, t: State)
    requires AllReady(s) && Runs(s, steps, t)
    ensures AllReady(t) && FilesGrow(s.w, t.w)
    decreases |steps|
  {
    hide AllReady, After, Enabled;
    if steps != [] {
      StepGrowsFiles(s, steps[0]);
      StepReady(s, steps[0]);
      RunReady(After(s, steps[0]), steps[1..], t);
    }
  }

  /** In every interleaving of requests, retries and crashes, and at every moment after: the file
      of an accepted completion is ready and its episode's, and so, and a rough mix besides, is
      the file of every transcribe job. */
  lemma AcceptedMeansReady(s: State, steps: seq<Step>, t: State, later: seq<Step>, u: State)
    requires Fresh(s) && Runs(s, steps, t) && Runs(t, later, u)
    ensures forall i :: 0 <= i < |t.replies| && t.replies[i].r.Complete? && t.replies[i].answer.Accepted? ==>
              ReadyFor(t.w, t.replies[i].r.audio, t.replies[i].r.episode)
              && ReadyFor(u.w, t.replies[i].r.audio, t.replies[i].r.episode)
    ensures forall i :: 0 <= i < |u.w.jobs| && u.w.jobs[i].key.OfAudio? ==>
              ReadyFor(u.w, u.w.jobs[i].key.audio, u.w.jobs[i].episode) && u.w.files[u.w.jobs[i].key.audio].rough
  {
    assert AllReady(s);
    RunReady(s, steps, t);
    RunReady(t, later, u);
    forall i | 0 <= i < |t.replies| && t.replies[i].r.Complete? && t.replies[i].answer.Accepted?
      ensures ReadyFor(t.w, t.replies[i].r.audio, t.replies[i].r.episode)
      ensures ReadyFor(u.w, t.replies[i].r.audio, t.replies[i].r.episode)
    {
      assert ReadyRequest(t.w, t.replies[i].r);
      StaysReady(t.w, u.w, t.replies[i].r);
    }
    forall i | 0 <= i < |u.w.jobs| && u.w.jobs[i].key.OfAudio?
      ensures ReadyFor(u.w, u.w.jobs[i].key.audio, u.w.jobs[i].episode) && u.w.files[u.w.jobs[i].key.audio].rough
    {
      assert JobReady(u.w, u.w.jobs[i]);
    }
  }

  // ---- one request on its own

  /** No record, or one that is a day old. */
  predicate Forgotten(w: World, r: Request) {
    At(r) in w.records ==> w.records[At(r)].created < w.now - 24 * 60 * 60
  }

  /** The job that is the request's: of its kind, for its audio file or with its key. */
  predicate Its(job: Job, r: Request) {
    match r
    case Complete(_, _, a, _) => job.kind == Transcribe && job.key == OfAudio(a)
    case Generate(k, _, pack) => job.kind == (if pack then Pack else Plan) && job.key == OfKey(k)
  }

  /** Why a request that is not remembered is refused, the checks in the route's order. */
  function Objection(w: World, r: Request): Option<Refusal> {
    match r
    case Generate(key, e, _) =>
      if e !in w.transcribed then Some(NoTranscript) else if key == "" then Some(KeyRequired) else None
    case Complete(key, e, a, c) =>
      if key == "" then Some(KeyRequired)
      else if a !in w.objects then Some(NoObject)
      else if w.objects[a].Some? && w.objects[a] != Some(c) then Some(ChecksumMismatch)
      else if a !in w.files || w.files[a].episode != e then Some(NoUpload)
      else None
  }

  lemma ObjectionIff(w: World, r: Request)
    ensures Objection(w, r).None? <==> Passes(w, r)
    ensures Look(w, r).Next? <==> Forgotten(w, r) && Objection(w, r) !in {Some(KeyRequired), Some(NoTranscript)}
    ensures Objection(w, r).Some? && Look(w, r).Next? ==>
              Mark(w, r, if At(r) in w.records then Some(w.records[At(r)]) else None).1 == Done(Refused(Objection(w, r).value))
    ensures Objection(w, r) in {Some(KeyRequired), Some(NoTranscript)} ==> Look(w, r) == Done(Refused(Objection(w, r).value))
  {
  }

  /** A request that is not remembered, uninterrupted: it is refused for the first objection, and
      changes nothing; or the file is ready, no other file is touched, and nothing more happens
      for a final mix, or to a job that is there already; or its job is new, and announced. It
      is answered 500 if and only if it would have nothing left to do and its own expired
      record is there. */
  lemma OnItsOwn(w: World, r: Request)
    requires Forgotten(w, r)
    ensures var (v, answer) := Call(w, r);
            && v.objects == w.objects && v.transcribed == w.transcribed && v.now == w.now
            && match Objection(w, r)
               case Some(why) => v == w && answer == Refused(why)
               case None =>
                 && v.files == (if r.Complete? then w.files[r.audio := w.files[r.audio].(ready := true)] else w.files)
                 && (answer.Accepted? || (answer == Refused(ServerError) && v == w))
                 && (answer == Refused(ServerError) <==>
                       && At(r) in w.records && (r.Complete? ==> w.files[r.audio].ready && w.files[r.audio].rough)
                       && exists i :: 0 <= i < |w.jobs| && Its(w.jobs[i], r))
                 && (if r.Complete? && !w.files[r.audio].rough
                     then v.jobs == w.jobs && v.sent == w.sent && answer == Accepted(Response(None, false))
                     else if exists i :: 0 <= i < |w.jobs| && Its(w.jobs[i], r)
                     then v.jobs == w.jobs && v.sent == w.sent
                          && (answer.Accepted? ==> exists i :: 0 <= i < |w.jobs| && Its(w.jobs[i], r) && answer == Accepted(Response(Some(i), true)))
                     else exists job: Job :: Its(job, r) && job.episode == r.episode && v.jobs == w.jobs + [job]
                            && v.sent == w.sent + [|w.jobs|] && answer == Accepted(Response(Some(|w.jobs|), false)))
  {
    hide Find, Finish;
    ObjectionIff(w, r);
    FindMeans(w.jobs, RouteOf(r).kind, JobKeyOf(r.key, BodyOf(r)));
    if Look(w, r).Next? {
      CallMarked(w, r);
      var stale := if At(r) in w.records then Some(w.records[At(r)]) else None;
      FinishMarked(Mark(w, r, stale).0, r, if CommitsFirst(w, r) then None else stale);
    } else {
      CallRefused(w, r);
    }
  }
}
