/**
 The uploads in object storage (edlo/services/deletion.py, apps/api/app/routes/audio.py,
 apps/api/app/routes/episodes.py) and the stages (edlo/jobs/transcribe.py), over whole runs
 of the archive's steps with any deletions, hurried or not.
 */
module Uploads {
  import opened Wrappers
  import opened Rows
  import opened Transcripts
  import opened Workflow
  import opened ArtifactCache

  ghost predicate AnyRun(g: Engine, s: State, steps: seq<Step>, t: State)
    decreases |steps|
  {
    if steps == [] then s == t
    else Enabled(s, steps[0]) && AnyRun(g, After(g, s, steps[0]), steps[1..], t)
  }

  // ---- uploads

  /** The upload of a living audio row is complete. */
  predicate Uploaded(s: State, a: AudioId) { a in s.audio && s.audio[a].checksum.Some? }

  predicate Stored(s: State, a: AudioId) { AudioKey(a) in s.storage }

  predicate OnlyArtifacts(s: State) {
    && (forall r :: r in s.rows ==> r.key.TranscriptKey?)
    && (forall h :: h in s.handlers && s.handlers[h].Pointing? ==> s.handlers[h].key.TranscriptKey?)
  }

  ghost predicate UploadsKept(s: State) {
    && (forall a :: Uploaded(s, a) ==> Stored(s, a) && s.storage[AudioKey(a)] == Bytes)
    && (forall a: AudioId :: a in s.audio || Stored(s, a) || AudioKey(a) in s.doomed ==> a < s.nextAudio)
    && (forall a :: AudioKey(a) in s.doomed ==> a !in s.audio)
    && OnlyArtifacts(s)
  }

  lemma StepKeepsOnlyArtifacts(g: Engine, s: State, step: Step)
    requires OnlyArtifacts(s) && Enabled(s, step)
    ensures OnlyArtifacts(After(g, s, step))
  {
    hide Orphans, Newest;
    if step.Look? {
      NewestMeans(s.rows, s.audio[step.a].checksum.value);
    } else if step.Delete? {
      SurvivorsMean(s, step.e);
    }
  }

  /** What a deletion dooms of the uploads: the episode's own. */
  lemma DoomedUploads(s: State, e: EpisodeId, a: AudioId)
    requires OnlyArtifacts(s)
    ensures AudioKey(a) in Deleted(s, e).doomed <==> AudioKey(a) in s.doomed || (a in s.audio && s.audio[a].episode == e)
    ensures a in Deleted(s, e).audio <==> a in s.audio && s.audio[a].episode != e
    ensures a in Deleted(s, e).audio ==> Deleted(s, e).audio[a] == s.audio[a]
  {
  }

  lemma StepKeepsUploads(g: Engine, s: State, step: Step)
    requires UploadsKept(s) && Enabled(s, step)
    ensures UploadsKept(After(g, s, step))
  {
    hide AudioKeys, Orphans, AudioWithout, Newest, OnlyArtifacts;
    var t := After(g, s, step);
    StepKeepsOnlyArtifacts(g, s, step);
    forall a | step.Delete?
      ensures AudioKey(a) in t.doomed <==> AudioKey(a) in s.doomed || (a in s.audio && s.audio[a].episode == step.e)
      ensures a in t.audio <==> a in s.audio && s.audio[a].episode != step.e
      ensures a in t.audio ==> t.audio[a] == s.audio[a]
    {
      DoomedUploads(s, step.e, a);
    }
    forall a | Uploaded(t, a) ensures Stored(t, a) && t.storage[AudioKey(a)] == Bytes {
      assert Uploaded(s, a) || step.Complete?;
    }
  }

  /** The step is a storage delete of an upload that fails. */
  predicate LosesUpload(s: State, step: Step) {
    step.Drop? && step.k.AudioKey? && step.k in s.storage && !step.ok
  }

  /** Every upload in storage has its row, or is about to be deleted. */
  ghost predicate UploadsAccounted(s: State) {
    forall a :: Stored(s, a) ==> Uploaded(s, a) || AudioKey(a) in s.doomed
  }

  lemma StepAccounts(g: Engine, s: State, step: Step)
    requires UploadsKept(s) && UploadsAccounted(s) && Enabled(s, step)
    ensures UploadsAccounted(After(g, s, step)) <==> !LosesUpload(s, step)
  {
    hide AudioKeys, Orphans, AudioWithout, Newest;
    var t := After(g, s, step);
    forall a | step.Delete?
      ensures AudioKey(a) in t.doomed <==> AudioKey(a) in s.doomed || (a in s.audio && s.audio[a].episode == step.e)
      ensures a in t.audio <==> a in s.audio && s.audio[a].episode != step.e
      ensures a in t.audio ==> t.audio[a] == s.audio[a]
    {
      DoomedUploads(s, step.e, a);
    }
    if LosesUpload(s, step) {
      assert Stored(t, step.k.id) && !Uploaded(t, step.k.id);
    } else {
      forall a | Stored(t, a) ensures Uploaded(t, a) || AudioKey(a) in t.doomed {
        assert Stored(s, a) || step.Complete?;
      }
    }
  }

  ghost predicate NoUploadLost(g: Engine, s: State, steps: seq<Step>)
    decreases |steps|
  {
    steps == [] || (Enabled(s, steps[0]) && !LosesUpload(s, steps[0]) && NoUploadLost(g, After(g, s, steps[0]), steps[1..]))
  }

  ghost predicate AlwaysAccounted(g: Engine, s: State, steps: seq<Step>)
    decreases |steps|
  {
    UploadsAccounted(s) && (steps == [] || (Enabled(s, steps[0]) && AlwaysAccounted(g, After(g, s, steps[0]), steps[1..])))
  }

  lemma {:induction false} UploadsFrom(g: Engine, s: State, steps: seq<Step>, t: State)
    requires UploadsKept(s) && AnyRun(g, s, steps, t)
    ensures UploadsKept(t)
    ensures UploadsAccounted(s) ==>
              (AlwaysAccounted(g, s, steps) <==> NoUploadLost(g, s, steps))
              && (AlwaysAccounted(g, s, steps) ==> UploadsAccounted(t))
    decreases |steps|
  {
    hide UploadsKept, UploadsAccounted, After, Enabled, LosesUpload;
    if steps != [] {
      var u := After(g, s, steps[0]);
      StepKeepsUploads(g, s, steps[0]);
      UploadsFrom(g, u, steps[1..], t);
      if UploadsAccounted(s) {
        StepAccounts(g, s, steps[0]);
        assert UploadsAccounted(u) <== AlwaysAccounted(g, u, steps[1..]);
      }
    }
  }

  lemma EmptyIsRight()
    ensures UploadsKept(EMPTY) && UploadsAccounted(EMPTY)
  {
  }

  /** In every run, whatever is deleted and whichever storage deletes fail: while an audio row
      with a finished upload lives, its bytes are in storage, and are not about to go. */
  lemma UploadsAlwaysThere(g: Engine, steps: seq<Step>, t: State, a: AudioId)
    requires AnyRun(g, EMPTY, steps, t) && Uploaded(t, a)
    ensures AudioKey(a) in t.storage && t.storage[AudioKey(a)] == Bytes && AudioKey(a) !in t.doomed
  {
    EmptyIsRight();
    UploadsFrom(g, EMPTY, steps, t);
  }

  /** Over any run, no upload is ever left in storage without its row or a deletion underway if
      and only if no storage delete of an upload fails. */
  lemma UploadsLeakIff(g: Engine, steps: seq<Step>, t: State)
    requires AnyRun(g, EMPTY, steps, t)
    ensures AlwaysAccounted(g, EMPTY, steps) <==> NoUploadLost(g, EMPTY, steps)
  {
    EmptyIsRight();
    UploadsFrom(g, EMPTY, steps, t);
  }

  /** So after a run without one, once no deletion is underway, an upload is in storage if and
      only if its audio row lives. */
  lemma UploadStoredIffAlive(g: Engine, steps: seq<Step>, t: State, a: AudioId)
    requires AnyRun(g, EMPTY, steps, t) && NoUploadLost(g, EMPTY, steps) && t.doomed == {}
    ensures AudioKey(a) in t.storage <==> Uploaded(t, a)
  {
    EmptyIsRight();
    UploadsFrom(g, EMPTY, steps, t);
  }

  // ---- stages

  /** Whose pointer a step inserts, if it inserts one. */
  function Transcribes(s: State, step: Step): Option<EpisodeId>
    requires Enabled(s, step)
  {
    match step
    case Point(h) => Some(s.handlers[h].episode)
    case Persist(h) =>
      if Uploaded(s, s.handlers[h].audio) then Some(s.audio[s.handlers[h].audio].episode) else None
    case _ => None
  }

  /** Nothing else moves an episode than people, along the workflow, and its first transcript,
      which takes it from registered to mixing. */
  lemma StageMoves(g: Engine, s: State, step: Step, e: EpisodeId)
    requires IdsHold(s) && Enabled(s, step) && e in s.stages
    ensures var t := After(g, s, step);
            if step == Delete(e) then e !in t.stages
            else
              && e in t.stages
              && t.stages[e] == if step.Advance? && step.e == e then step.to
                                else if Transcribes(s, step) == Some(e) && s.stages[e] == Registered then Mixing
                                else s.stages[e]
  {
    hide Newest, Orphans, AudioKeys, AudioWithout;
  }

  /** So along any run the stage of an episode goes only where some role, or the system, may
      take it. */
  lemma MovesArePermitted(g: Engine, s: State, step: Step, e: EpisodeId)
    requires IdsHold(s) && Enabled(s, step) && e in s.stages && e in After(g, s, step).stages
    ensures var from, to := s.stages[e], After(g, s, step).stages[e];
            from != to ==>
              Permitted(from, to, SYSTEM_ROLE) || (step.Advance? && step.e == e && Permitted(from, to, step.role))
  {
    StageMoves(g, s, step, e);
  }
}
