/**
 The content-addressed transcript cache (edlo/jobs/transcribe.py) and the deletion of
 episodes (edlo/services/deletion.py), which share artifacts in object storage through
 pointer rows. The handlers' and the deletions' steps interleave: a handler's look-up, its
 engine run with the upload, and its insert are separate, and so are a deletion's commit and
 each of its storage deletes.
 */
module ArtifactCache {
  import opened Rows
  import opened Transcripts
  import opened Workflow
  import opened Wrappers

  type EpisodeId = nat
  type AudioId = nat
  type HandlerId = nat
  type Checksum = string

  /** What the speech engine makes of some bytes; None where it fails for good. */
  type Engine = Checksum -> Option<Transcript>

  datatype Key = AudioKey(id: AudioId) | TranscriptKey(home: EpisodeId, content: Checksum)

  datatype Object = Bytes | Artifact(transcript: Transcript)

  /** An audio_files row; its checksum is known once its upload completed and it is ready. */
  datatype Audio = Audio(episode: EpisodeId, checksum: Option<Checksum>)

  /** A transcripts row: a pointer to an artifact. */
  datatype Row = Row(audio: AudioId, episode: EpisodeId, key: Key, checksum: Checksum)

  function EpisodeOf(): Row -> EpisodeId { (r: Row) => r.episode }

  /** Where a transcribe_audio call is: about to point at a cached artifact, running the
      engine, or with its artifact uploaded. */
  datatype Handler =
    | Pointing(audio: AudioId, episode: EpisodeId, checksum: Checksum, key: Key)
    | Working(audio: AudioId, episode: EpisodeId, checksum: Checksum)
    | Saved(audio: AudioId, episode: EpisodeId, checksum: Checksum)

  /** `doomed` are the keys that deletions returned and whose objects are still to go;
      `runs` records every run of the engine. */
  datatype State = State(
    stages: map<EpisodeId, Stage>, audio: map<AudioId, Audio>, rows: seq<Row>, storage: map<Key, Object>,
    doomed: set<Key>, handlers: map<HandlerId, Handler>, nextEpisode: nat, nextAudio: nat, runs: seq<Checksum>)

  const EMPTY := State(map[], map[], [], map[], {}, map[], 0, 0, [])

  // ---- the operations' pieces

  /** The newest row for a checksum. */
  function Newest(rows: seq<Row>, c: Checksum): Option<Row> {
    if rows == [] then None
    else if rows[|rows| - 1].checksum == c then Some(rows[|rows| - 1])
    else Newest(rows[..|rows| - 1], c)
  }

  lemma {:induction false} NewestMeans(rows: seq<Row>, c: Checksum)
    ensures Newest(rows, c).None? <==> forall r :: r in rows ==> r.checksum != c
    ensures Newest(rows, c).Some? ==> Newest(rows, c).value in rows && Newest(rows, c).value.checksum == c
    ensures Newest(rows, c).Some? ==> exists i :: LastFor(rows, c, i) && Newest(rows, c).value == rows[i]
  {
    if rows != [] {
      var before := rows[..|rows| - 1];
      NewestMeans(before, c);
      assert rows == before + [rows[|rows| - 1]];
      if rows[|rows| - 1].checksum == c {
        assert LastFor(rows, c, |rows| - 1);
      } else if i :| LastFor(before, c, i) && Newest(before, c).value == before[i] {
        assert LastFor(rows, c, i);
      }
    }
  }

  /** The i-th row is for the checksum, and none after it is. */
  predicate LastFor(rows: seq<Row>, c: Checksum, i: int) {
    0 <= i < |rows| && rows[i].checksum == c && forall j :: i < j < |rows| ==> rows[j].checksum != c
  }

  /** What a handler finds: the newest row for the bytes, if it is another file's, sends it to
      that row's artifact; its own leaves nothing to do; none sets the engine to work. */
  lemma LookMeans(s: State, h: HandlerId, a: AudioId)
    requires Enabled(s, Look(h, a))
    ensures var c, e := s.audio[a].checksum.value, s.audio[a].episode;
            && (forall i :: LastFor(s.rows, c, i) ==>
                  Looked(s, h, a) == if s.rows[i].audio == a then s
                                     else s.(handlers := s.handlers[h := Pointing(a, e, c, s.rows[i].key)]))
            && ((forall i :: !LastFor(s.rows, c, i)) ==> Looked(s, h, a) == s.(handlers := s.handlers[h := Working(a, e, c)]))
  {
    var c := s.audio[a].checksum.value;
    NewestMeans(s.rows, c);
    forall i, j | LastFor(s.rows, c, i) && LastFor(s.rows, c, j) ensures i == j {
    }
    forall i | LastFor(s.rows, c, i) ensures Newest(s.rows, c).Some? {
      assert s.rows[i] in s.rows;
    }
  }

  predicate Referenced(rows: seq<Row>, k: Key) { exists r :: r in rows && r.key == k }

  /** Some other episode's row points at the object too. */
  predicate Shared(rows: seq<Row>, k: Key, e: EpisodeId) { exists r :: r in rows && r.key == k && r.episode != e }

  function AudioKeys(audio: map<AudioId, Audio>, e: EpisodeId): set<Key> {
    set a | a in audio && audio[a].episode == e :: AudioKey(a)
  }

  function Orphans(rows: seq<Row>, e: EpisodeId): set<Key> {
    set r | r in rows && r.episode == e && !Shared(rows, r.key, e) :: r.key
  }

  function AudioWithout(audio: map<AudioId, Audio>, e: EpisodeId): map<AudioId, Audio> {
    map a | a in audio && audio[a].episode != e :: audio[a]
  }

  /** The pointer row, then the stage move, in one transaction. */
  function Persisted(s: State, r: Row): State {
    s.(rows := s.rows + [r],
       stages := if r.episode in s.stages && s.stages[r.episode] == Registered then s.stages[r.episode := Mixing]
                 else s.stages)
  }

  // ---- steps

  datatype Step =
    | Register
    | Advance(e: EpisodeId, to: Stage, role: Role)
    | Target(e: EpisodeId)
    | Complete(a: AudioId, c: Checksum)
    | Look(h: HandlerId, a: AudioId)
    | Point(h: HandlerId)
    | Transcribe(h: HandlerId)
    | Persist(h: HandlerId)
    | Crash(h: HandlerId)
    | Delete(e: EpisodeId)
    | Drop(k: Key, ok: bool)

  predicate Enabled(s: State, step: Step) {
    match step
    case Register => true
    case Advance(e, to, role) => e in s.stages && Permitted(s.stages[e], to, role)
    case Target(e) => e in s.stages
    case Complete(a, _) => a in s.audio && s.audio[a].checksum.None?
    case Look(h, a) => h !in s.handlers && a in s.audio && s.audio[a].checksum.Some?
    case Point(h) => h in s.handlers && s.handlers[h].Pointing?
    case Transcribe(h) => h in s.handlers && s.handlers[h].Working?
    case Persist(h) => h in s.handlers && s.handlers[h].Saved?
    case Crash(h) => h in s.handlers
    case Delete(e) => e in s.stages && s.stages[e] != Published
    case Drop(k, _) => k in s.doomed
  }

  function Looked(s: State, h: HandlerId, a: AudioId): State
    requires Enabled(s, Look(h, a))
  {
    var c := s.audio[a].checksum.value;
    match Newest(s.rows, c)
    case None => s.(handlers := s.handlers[h := Working(a, s.audio[a].episode, c)])
    case Some(cached) =>
      if cached.audio != a then s.(handlers := s.handlers[h := Pointing(a, s.audio[a].episode, c, cached.key)]) else s
  }

  function Transcribed(g: Engine, s: State, h: HandlerId): State
    requires Enabled(s, Transcribe(h))
  {
    var w := s.handlers[h];
    var ran := s.(runs := s.runs + [w.checksum]);
    match g(w.checksum)
    case None => ran.(handlers := s.handlers - {h})
    case Some(t) =>
      ran.(storage := s.storage[TranscriptKey(w.episode, w.checksum) := Artifact(t)],
           handlers := s.handlers[h := Saved(w.audio, w.episode, w.checksum)])
  }

  function Deleted(s: State, e: EpisodeId): State {
    s.(stages := s.stages - {e}, audio := AudioWithout(s.audio, e), rows := Without(s.rows, EpisodeOf(), e),
       doomed := s.doomed + AudioKeys(s.audio, e) + Orphans(s.rows, e))
  }

  function After(g: Engine, s: State, step: Step): State
    requires Enabled(s, step)
  {
    match step
    case Register => s.(stages := s.stages[s.nextEpisode := Registered], nextEpisode := s.nextEpisode + 1)
    case Advance(e, to, _) => s.(stages := s.stages[e := to])
    case Target(e) => s.(audio := s.audio[s.nextAudio := Audio(e, None)], nextAudio := s.nextAudio + 1)
    case Complete(a, c) =>
      s.(audio := s.audio[a := s.audio[a].(checksum := Some(c))], storage := s.storage[AudioKey(a) := Bytes])
    case Look(h, a) => Looked(s, h, a)
    case Point(h) =>
      var w := s.handlers[h];
      Persisted(s, Row(w.audio, w.episode, w.key, w.checksum)).(handlers := s.handlers - {h})
    case Transcribe(h) => Transcribed(g, s, h)
    case Persist(h) =>
      var w := s.handlers[h];
      var next := if w.audio in s.audio && s.audio[w.audio].checksum.Some?
                  then Persisted(s, Row(w.audio, s.audio[w.audio].episode, TranscriptKey(w.episode, w.checksum),
                                        s.audio[w.audio].checksum.value))
                  else s;
      next.(handlers := s.handlers - {h})
    case Crash(h) => s.(handlers := s.handlers - {h})
    case Delete(e) => Deleted(s, e)
    case Drop(k, ok) => s.(doomed := s.doomed - {k}, storage := if ok then s.storage - {k} else s.storage)
  }

  /** No handler has found a cached artifact that this deletion orphans and not yet inserted
      its own pointer to it. */
  predicate Unhurried(s: State, e: EpisodeId) {
    forall h :: h in s.handlers && s.handlers[h].Pointing? ==> s.handlers[h].key !in Orphans(s.rows, e)
  }

  predicate Careful(s: State, step: Step) { step.Delete? ==> Unhurried(s, step.e) }

  /** Runs are of unhurried deletions; what a hurried one does is DeletionSafeIffUnhurried. */
  ghost predicate Runs(g: Engine, s: State, steps: seq<Step>, t: State)
    decreases |steps|
  {
    if steps == [] then s == t
    else Enabled(s, steps[0]) && Careful(s, steps[0]) && Runs(g, After(g, s, steps[0]), steps[1..], t)
  }

  // ---- the invariant

  predicate RowHolds(g: Engine, s: State, r: Row) {
    && r.key.TranscriptKey?
    && r.key.content == r.checksum
    && r.key.home < s.nextEpisode
    && r.audio < s.nextAudio
    && r.episode < s.nextEpisode
    && g(r.checksum).Some?
    && r.key in s.storage
    && s.storage[r.key] == Artifact(g(r.checksum).value)
    && (r.audio in s.audio ==> s.audio[r.audio] == Audio(r.episode, Some(r.checksum)))
  }

  /** While the episode that an artifact was made for is alive, it keeps a row for it. */
  predicate AtHome(rows: seq<Row>, alive: set<EpisodeId>, k: Key) {
    k.TranscriptKey? && k.home in alive ==> exists q :: q in rows && q.key == k && q.episode == k.home
  }

  /** So does the row's key, and the row's own episode has left `registered`. */
  predicate HomeKept(s: State, r: Row) {
    && AtHome(s.rows, s.stages.Keys, r.key)
    && (r.episode in s.stages ==> s.stages[r.episode] != Registered)
  }

  predicate DoomedFree(s: State, k: Key) {
    k.TranscriptKey? ==> k.home < s.nextEpisode && k.home !in s.stages && !Referenced(s.rows, k)
  }

  predicate HandlerHolds(g: Engine, s: State, w: Handler) {
    && w.audio < s.nextAudio
    && w.episode < s.nextEpisode
    && (w.audio in s.audio ==> s.audio[w.audio] == Audio(w.episode, Some(w.checksum)))
    && (w.Pointing? ==> w.key.TranscriptKey? && w.key.content == w.checksum && Referenced(s.rows, w.key))
    && (w.Saved? && w.audio in s.audio ==>
          && g(w.checksum).Some?
          && TranscriptKey(w.episode, w.checksum) in s.storage
          && s.storage[TranscriptKey(w.episode, w.checksum)] == Artifact(g(w.checksum).value))
  }

  predicate AudioHolds(s: State, a: AudioId)
    requires a in s.audio
  {
    a < s.nextAudio && s.audio[a].episode in s.stages
  }

  predicate RowsHold(g: Engine, s: State) { forall r :: r in s.rows ==> RowHolds(g, s, r) }
  predicate HomesKept(s: State) { forall r :: r in s.rows ==> HomeKept(s, r) }
  predicate AllDoomedFree(s: State) { forall k :: k in s.doomed ==> DoomedFree(s, k) }
  predicate HandlersHold(g: Engine, s: State) { forall h :: h in s.handlers ==> HandlerHolds(g, s, s.handlers[h]) }
  predicate IdsHold(s: State) {
    && (forall a :: a in s.audio ==> AudioHolds(s, a))
    && (forall e :: e in s.stages ==> e < s.nextEpisode)
  }

  predicate Inv(g: Engine, s: State) {
    RowsHold(g, s) && HomesKept(s) && AllDoomedFree(s) && HandlersHold(g, s) && IdsHold(s)
  }

  // ---- each step keeps it

  lemma SurvivorsMean(s: State, e: EpisodeId)
    ensures forall r :: r in Without(s.rows, EpisodeOf(), e) <==> r in s.rows && r.episode != e
  {
    forall r ensures r in Without(s.rows, EpisodeOf(), e) <==> r in s.rows && r.episode != e {
      WithoutMeans(s.rows, EpisodeOf(), e, r);
    }
  }

  lemma OrphansMean(rows: seq<Row>, e: EpisodeId, k: Key)
    ensures k in Orphans(rows, e) <==> Referenced(rows, k) && !Shared(rows, k, e)
  {
  }

  lemma DeleteKeeps(g: Engine, s: State, e: EpisodeId)
    requires Inv(g, s) && Enabled(s, Delete(e)) && Unhurried(s, e)
    ensures Inv(g, Deleted(s, e))
  {
    var t := Deleted(s, e);
    SurvivorsMean(s, e);
    forall r | r in t.rows ensures RowHolds(g, t, r) && HomeKept(t, r) {
      assert RowHolds(g, s, r) && HomeKept(s, r);
    }
    forall k | k in t.doomed ensures DoomedFree(t, k) {
      if k in s.doomed {
        assert DoomedFree(s, k);
      } else if k.TranscriptKey? {
        OrphansMean(s.rows, e, k);
        var r :| r in s.rows && r.key == k;
        assert RowHolds(g, s, r) && HomeKept(s, r);
      }
    }
    forall h | h in t.handlers ensures HandlerHolds(g, t, t.handlers[h]) {
      var w := s.handlers[h];
      assert HandlerHolds(g, s, w);
      if w.Pointing? {
        OrphansMean(s.rows, e, w.key);
        var r :| r in s.rows && r.key == w.key && r.episode != e;
        assert r in t.rows;
      }
    }
    forall a | a in t.audio ensures AudioHolds(t, a) {
      assert AudioHolds(s, a);
    }
  }

  lemma DropKeeps(g: Engine, s: State, k: Key, ok: bool)
    requires Inv(g, s) && Enabled(s, Drop(k, ok))
    ensures Inv(g, After(g, s, Drop(k, ok)))
  {
    var t := After(g, s, Drop(k, ok));
    assert DoomedFree(s, k);
    forall r | r in t.rows ensures RowHolds(g, t, r) && HomeKept(t, r) {
      assert RowHolds(g, s, r) && HomeKept(s, r);
      assert Referenced(s.rows, r.key);
    }
    forall j | j in t.doomed ensures DoomedFree(t, j) {
      assert DoomedFree(s, j);
    }
    forall h | h in t.handlers ensures HandlerHolds(g, t, t.handlers[h]) {
      var w := s.handlers[h];
      assert HandlerHolds(g, s, w);
      if w.audio in s.audio {
        assert AudioHolds(s, w.audio);
      }
    }
    forall a | a in t.audio ensures AudioHolds(t, a) {
      assert AudioHolds(s, a);
    }
  }

  lemma AtHomeBeside(rows: seq<Row>, alive: set<EpisodeId>, r: Row, k: Key)
    requires AtHome(rows, alive, k)
    ensures AtHome(rows + [r], alive, k)
  {
    if k.TranscriptKey? && k.home in alive {
      var q :| q in rows && q.key == k && q.episode == k.home;
      assert q in rows + [r];
    }
  }

  lemma AtHomeAlone(rows: seq<Row>, alive: set<EpisodeId>, r: Row)
    requires r.key.TranscriptKey? && r.key.home == r.episode
    ensures AtHome(rows + [r], alive, r.key)
  {
    assert r in rows + [r];
  }

  lemma KeyAtHome(s: State, k: Key)
    requires HomesKept(s) && Referenced(s.rows, k)
    ensures AtHome(s.rows, s.stages.Keys, k)
  {
    var p :| p in s.rows && p.key == k;
    assert HomeKept(s, p);
  }

  /** A row whose key some row already has, or whose key is its own episode's, is at home
      beside it; and rows that were at home stay so. */
  lemma PersistedHome(s: State, r: Row, q: Row)
    requires HomesKept(s) && q in Persisted(s, r).rows && r.key.TranscriptKey?
    requires Referenced(s.rows, r.key) || r.key.home == r.episode
    ensures HomeKept(Persisted(s, r), q)
  {
    hide AtHome;
    assert Persisted(s, r).stages.Keys == s.stages.Keys;
    if q in s.rows {
      assert HomeKept(s, q);
      AtHomeBeside(s.rows, s.stages.Keys, r, q.key);
    } else if Referenced(s.rows, r.key) {
      KeyAtHome(s, r.key);
      AtHomeBeside(s.rows, s.stages.Keys, r, r.key);
    } else {
      AtHomeAlone(s.rows, s.stages.Keys, r);
    }
  }

  /** A new row keeps the invariant when it points at its own checksum's artifact, and at a
      key that is its own episode's or that some row already has. */
  lemma PersistedKeeps(g: Engine, s: State, r: Row)
    requires Inv(g, s) && RowHolds(g, s, r)
    requires Referenced(s.rows, r.key) || (r.key.home == r.episode && r.key.home in s.stages)
    ensures Inv(g, Persisted(s, r))
  {
    var t := Persisted(s, r);
    forall q | q in t.rows ensures RowHolds(g, t, q) && HomeKept(t, q) {
      PersistedHome(s, r, q);
      assert q in s.rows ==> RowHolds(g, s, q);
    }
    forall k | k in t.doomed ensures DoomedFree(t, k) {
      assert DoomedFree(s, k);
    }
    forall h | h in t.handlers ensures HandlerHolds(g, t, t.handlers[h]) {
      assert HandlerHolds(g, s, s.handlers[h]);
      if s.handlers[h].Pointing? {
        var p :| p in s.rows && p.key == s.handlers[h].key;
        assert p in t.rows;
      }
    }
    forall a | a in t.audio ensures AudioHolds(t, a) {
      assert AudioHolds(s, a);
    }
  }

  /** Dropping a handler, or giving it a new state that holds, changes nothing else. */
  lemma HandlerChangeKeeps(g: Engine, s: State, handlers: map<HandlerId, Handler>, runs: seq<Checksum>)
    requires Inv(g, s)
    requires forall h :: h in handlers ==> (h in s.handlers && handlers[h] == s.handlers[h]) || HandlerHolds(g, s, handlers[h])
    ensures Inv(g, s.(handlers := handlers, runs := runs))
  {
    var t := s.(handlers := handlers, runs := runs);
    forall r | r in t.rows ensures RowHolds(g, t, r) && HomeKept(t, r) {
      assert RowHolds(g, s, r) && HomeKept(s, r);
    }
    forall k | k in t.doomed ensures DoomedFree(t, k) {
      assert DoomedFree(s, k);
    }
    forall h | h in t.handlers ensures HandlerHolds(g, t, t.handlers[h]) {
      assert HandlerHolds(g, s, t.handlers[h]);
    }
    forall a | a in t.audio ensures AudioHolds(t, a) {
      assert AudioHolds(s, a);
    }
  }

  /** Uploading an artifact under its own checksum's key overwrites nothing that differs. */
  lemma UploadKeeps(g: Engine, s: State, e: EpisodeId, c: Checksum)
    requires Inv(g, s) && g(c).Some?
    ensures Inv(g, s.(storage := s.storage[TranscriptKey(e, c) := Artifact(g(c).value)]))
  {
    var t := s.(storage := s.storage[TranscriptKey(e, c) := Artifact(g(c).value)]);
    forall r | r in t.rows ensures RowHolds(g, t, r) && HomeKept(t, r) {
      assert RowHolds(g, s, r) && HomeKept(s, r);
    }
    forall k | k in t.doomed ensures DoomedFree(t, k) {
      assert DoomedFree(s, k);
    }
    forall h | h in t.handlers ensures HandlerHolds(g, t, t.handlers[h]) {
      assert HandlerHolds(g, s, s.handlers[h]);
    }
    forall a | a in t.audio ensures AudioHolds(t, a) {
      assert AudioHolds(s, a);
    }
  }

  lemma RegisterKeeps(g: Engine, s: State)
    requires Inv(g, s)
    ensures Inv(g, After(g, s, Register))
  {
    var t := After(g, s, Register);
    forall r | r in t.rows ensures RowHolds(g, t, r) && HomeKept(t, r) {
      assert RowHolds(g, s, r) && HomeKept(s, r);
    }
    forall k | k in t.doomed ensures DoomedFree(t, k) {
      assert DoomedFree(s, k);
    }
    forall h | h in t.handlers ensures HandlerHolds(g, t, t.handlers[h]) {
      assert HandlerHolds(g, s, s.handlers[h]);
    }
    forall a | a in t.audio ensures AudioHolds(t, a) {
      assert AudioHolds(s, a);
    }
  }

  /** New audio, a completed upload and a stage move leave rows and artifacts alone. */
  lemma PlainStepKeeps(g: Engine, s: State, step: Step)
    requires Inv(g, s) && Enabled(s, step) && (step.Advance? || step.Target? || step.Complete?)
    ensures Inv(g, After(g, s, step))
  {
    var t := After(g, s, step);
    forall r | r in t.rows ensures RowHolds(g, t, r) && HomeKept(t, r) {
      assert RowHolds(g, s, r) && HomeKept(s, r);
    }
    forall k | k in t.doomed ensures DoomedFree(t, k) {
      assert DoomedFree(s, k);
    }
    forall h | h in t.handlers ensures HandlerHolds(g, t, t.handlers[h]) {
      assert HandlerHolds(g, s, s.handlers[h]);
    }
    forall a | a in t.audio ensures AudioHolds(t, a) {
      if a in s.audio {
        assert AudioHolds(s, a);
      }
    }
  }

  lemma LookKeeps(g: Engine, s: State, h: HandlerId, a: AudioId)
    requires Inv(g, s) && Enabled(s, Look(h, a))
    ensures Inv(g, Looked(s, h, a))
  {
    var c := s.audio[a].checksum.value;
    NewestMeans(s.rows, c);
    assert AudioHolds(s, a);
    var t := Looked(s, h, a);
    if Newest(s.rows, c).Some? {
      assert RowHolds(g, s, Newest(s.rows, c).value);
    }
    assert h in t.handlers ==> HandlerHolds(g, s, t.handlers[h]);
    HandlerChangeKeeps(g, s, t.handlers, s.runs);
  }

  lemma TranscribeKeeps(g: Engine, s: State, h: HandlerId)
    requires Inv(g, s) && Enabled(s, Transcribe(h))
    ensures Inv(g, Transcribed(g, s, h))
  {
    var w := s.handlers[h];
    assert HandlerHolds(g, s, w);
    var t := Transcribed(g, s, h);
    if g(w.checksum).None? {
      HandlerChangeKeeps(g, s, t.handlers, t.runs);
    } else {
      UploadKeeps(g, s, w.episode, w.checksum);
      var u := s.(storage := t.storage);
      assert HandlerHolds(g, u, t.handlers[h]);
      HandlerChangeKeeps(g, u, t.handlers, t.runs);
    }
  }

  lemma PointKeeps(g: Engine, s: State, h: HandlerId)
    requires Inv(g, s) && Enabled(s, Point(h))
    ensures Inv(g, After(g, s, Point(h)))
  {
    var w := s.handlers[h];
    assert HandlerHolds(g, s, w);
    var p :| p in s.rows && p.key == w.key;
    assert RowHolds(g, s, p);
    var r := Row(w.audio, w.episode, w.key, w.checksum);
    PersistedKeeps(g, s, r);
    HandlerChangeKeeps(g, Persisted(s, r), s.handlers - {h}, s.runs);
  }

  lemma PersistKeeps(g: Engine, s: State, h: HandlerId)
    requires Inv(g, s) && Enabled(s, Persist(h))
    ensures Inv(g, After(g, s, Persist(h)))
  {
    var w := s.handlers[h];
    assert HandlerHolds(g, s, w);
    if w.audio in s.audio {
      assert AudioHolds(s, w.audio);
      var r := Row(w.audio, w.episode, TranscriptKey(w.episode, w.checksum), w.checksum);
      PersistedKeeps(g, s, r);
      HandlerChangeKeeps(g, Persisted(s, r), s.handlers - {h}, s.runs);
    } else {
      HandlerChangeKeeps(g, s, s.handlers - {h}, s.runs);
    }
  }

  lemma StepKeeps(g: Engine, s: State, step: Step)
    requires Inv(g, s) && Enabled(s, step) && Careful(s, step)
    ensures Inv(g, After(g, s, step))
  {
    hide Inv, Deleted, Looked, Transcribed;
    match step
    case Register => RegisterKeeps(g, s);
    case Look(h, a) => LookKeeps(g, s, h, a);
    case Point(h) => PointKeeps(g, s, h);
    case Transcribe(h) => TranscribeKeeps(g, s, h);
    case Persist(h) => PersistKeeps(g, s, h);
    case Crash(h) => HandlerChangeKeeps(g, s, s.handlers - {h}, s.runs);
    case Delete(e) => DeleteKeeps(g, s, e);
    case Drop(k, ok) => DropKeeps(g, s, k, ok);
    case _ => PlainStepKeeps(g, s, step);
  }

  // ---- what every run guarantees

  /** Every pointer leads to the artifact for its own checksum. */
  predicate Served(g: Engine, s: State) {
    forall r :: r in s.rows ==>
      r.key in s.storage && g(r.checksum).Some? && s.storage[r.key] == Artifact(g(r.checksum).value)
  }

  lemma {:induction false} RunKeeps(g: Engine, s: State, steps: seq<Step>, t: State)
    requires Inv(g, s) && Runs(g, s, steps, t)
    ensures Inv(g, t)
    decreases |steps|
  {
    hide Inv, After, Enabled, Careful;
    if steps != [] {
      StepKeeps(g, s, steps[0]);
      RunKeeps(g, After(g, s, steps[0]), steps[1..], t);
    }
  }

  /** In every run from the empty archive, with handlers, crashes, unhurried deletions and
      failed storage deletes interleaved, every transcript row leads to its own audio's
      artifact. */
  lemma AlwaysServed(g: Engine, steps: seq<Step>, t: State)
    requires Runs(g, EMPTY, steps, t)
    ensures Served(g, t)
    ensures forall r :: r in t.rows && r.audio in t.audio ==> t.audio[r.audio] == Audio(r.episode, Some(r.checksum))
    ensures forall r :: r in t.rows && r.episode in t.stages ==> t.stages[r.episode] != Registered
  {
    RunKeeps(g, EMPTY, steps, t);
    assert forall r :: r in t.rows ==> RowHolds(g, t, r) && HomeKept(t, r);
  }

  lemma InvServed(g: Engine, s: State)
    requires Inv(g, s)
    ensures Served(g, s)
  {
    assert forall r :: r in s.rows ==> RowHolds(g, s, r);
  }

  lemma StepKeepsPublished(g: Engine, s: State, step: Step, e: EpisodeId)
    requires IdsHold(s) && Enabled(s, step) && e in s.stages && s.stages[e] == Published
    ensures var t := After(g, s, step);
            && e in t.stages && t.stages[e] == Published
            && (forall r :: r in s.rows && r.episode == e ==> r in t.rows)
            && (forall a :: a in s.audio && s.audio[a].episode == e ==> a in t.audio && t.audio[a].episode == e)
  {
    hide Newest, Orphans;
    if step.Delete? {
      SurvivorsMean(s, step.e);
    }
    assert forall a :: a in s.audio ==> AudioHolds(s, a);
  }

  /** A published episode is the record: in every run it stays published, and its audio and
      transcript rows stay, leading to their artifacts. */
  lemma {:induction false} PublishedKept(g: Engine, s: State, steps: seq<Step>, t: State, e: EpisodeId)
    requires Inv(g, s) && Runs(g, s, steps, t) && e in s.stages && s.stages[e] == Published
    ensures e in t.stages && t.stages[e] == Published && Served(g, t)
    ensures forall r :: r in s.rows && r.episode == e ==> r in t.rows
    ensures forall a :: a in s.audio && s.audio[a].episode == e ==> a in t.audio && t.audio[a].episode == e
    decreases |steps|
  {
    hide After, Enabled, Careful, Served;
    InvServed(g, s);
    if steps != [] {
      var u := After(g, s, steps[0]);
      StepKeeps(g, s, steps[0]);
      StepKeepsPublished(g, s, steps[0], e);
      PublishedKept(g, u, steps[1..], t, e);
    }
  }

  /** The hypothesis on deletions is exact: a deletion can never lead to a broken pointer if
      and only if no handler is between finding an artifact that the deletion orphans and
      inserting its own pointer to it. */
  lemma DeletionSafeIffUnhurried(g: Engine, s: State, e: EpisodeId)
    requires Inv(g, s) && Enabled(s, Delete(e))
    ensures Unhurried(s, e) <==>
            forall steps: seq<Step>, t: State :: Runs(g, Deleted(s, e), steps, t) ==> Served(g, t)
  {
    if Unhurried(s, e) {
      DeleteKeeps(g, s, e);
      forall steps: seq<Step>, t: State | Runs(g, Deleted(s, e), steps, t) ensures Served(g, t) {
        RunKeeps(g, Deleted(s, e), steps, t);
        InvServed(g, t);
      }
    } else {
      var h :| h in s.handlers && s.handlers[h].Pointing? && s.handlers[h].key in Orphans(s.rows, e);
      HurriedDeletionBreaks(g, s, e, h);
    }
  }

  lemma HurriedDeletionBreaks(g: Engine, s: State, e: EpisodeId, h: HandlerId)
    requires Enabled(s, Delete(e)) && h in s.handlers && s.handlers[h].Pointing?
    requires s.handlers[h].key in Orphans(s.rows, e)
    ensures exists steps: seq<Step>, t: State :: Runs(g, Deleted(s, e), steps, t) && !Served(g, t)
  {
    var w := s.handlers[h];
    var r := Row(w.audio, w.episode, w.key, w.checksum);
    var s1 := Deleted(s, e);
    var s2 := After(g, s1, Point(h));
    var s3 := After(g, s2, Drop(w.key, true));
    assert r in s3.rows && r.key !in s3.storage;
    var steps := [Point(h), Drop(w.key, true)];
    assert steps[1..] == [Drop(w.key, true)];
    assert Runs(g, s3, [], s3);
    assert [Drop(w.key, true)][1..] == [];
    assert Runs(g, s2, steps[1..], s3);
    assert Runs(g, s1, steps, s3);
  }

  // ---- sharing cannot be seen

  predicate Finished(rows: seq<Row>, a: AudioId) { exists r :: r in rows && r.audio == a }

  /** The newest pointer of an audio file. */
  function Pointer(rows: seq<Row>, a: AudioId): Key
    requires Finished(rows, a)
  {
    var last := rows[|rows| - 1];
    if last.audio == a then last.key
    else
      assert forall r :: r in rows ==> r in rows[..|rows| - 1] || r == last;
      Pointer(rows[..|rows| - 1], a)
  }

  lemma {:induction false} PointerMeans(rows: seq<Row>, a: AudioId)
    requires Finished(rows, a)
    ensures exists r :: r in rows && r.audio == a && r.key == Pointer(rows, a)
  {
    var last := rows[|rows| - 1];
    if last.audio != a {
      assert forall r :: r in rows ==> r in rows[..|rows| - 1] || r == last;
      PointerMeans(rows[..|rows| - 1], a);
    }
  }

  /** What a reader finds by following each audio file's newest pointer. */
  function Seen(s: State): map<AudioId, Option<Object>> {
    map a | a in s.audio && Finished(s.rows, a) ::
      if Pointer(s.rows, a) in s.storage then Some(s.storage[Pointer(s.rows, a)]) else None
  }

  /** The plain store: its own audio files, and for each finished one an artifact of its own,
      made from its own bytes, which goes when its episode goes. */
  datatype Plain = Plain(files: map<AudioId, Audio>, artifacts: map<AudioId, Option<Object>>)

  datatype PlainStep = Added(a: AudioId, e: EpisodeId) | Uploaded(a: AudioId, c: Checksum) | Done(a: AudioId) | Removed(e: EpisodeId) | Unseen

  function AfterPlain(g: Engine, p: Plain, step: PlainStep): Plain {
    match step
    case Added(a, e) => p.(files := p.files[a := Audio(e, None)])
    case Uploaded(a, c) => if a in p.files then p.(files := p.files[a := p.files[a].(checksum := Some(c))]) else p
    case Done(a) =>
      if a in p.files && p.files[a].checksum.Some? && g(p.files[a].checksum.value).Some?
      then p.(artifacts := p.artifacts[a := Some(Artifact(g(p.files[a].checksum.value).value))])
      else p
    case Removed(e) =>
      Plain(AudioWithout(p.files, e), map a | a in p.artifacts && a in p.files && p.files[a].episode != e :: p.artifacts[a])
    case Unseen => p
  }

  /** What a step of the shared store is to the plain one. */
  function Observed(s: State, step: Step): PlainStep
    requires Enabled(s, step)
  {
    match step
    case Target(e) => Added(s.nextAudio, e)
    case Complete(a, c) => Uploaded(a, c)
    case Point(h) => Done(s.handlers[h].audio)
    case Persist(h) => Done(s.handlers[h].audio)
    case Delete(e) => Removed(e)
    case _ => Unseen
  }

  function AsPlain(s: State): Plain { Plain(s.audio, Seen(s)) }

  lemma SeenIsOwn(g: Engine, s: State, a: AudioId)
    requires Inv(g, s) && a in s.audio && Finished(s.rows, a)
    ensures s.audio[a].checksum.Some? && g(s.audio[a].checksum.value).Some?
    ensures Seen(s)[a] == Some(Artifact(g(s.audio[a].checksum.value).value))
  {
    PointerMeans(s.rows, a);
    var r :| r in s.rows && r.audio == a && r.key == Pointer(s.rows, a);
    assert RowHolds(g, s, r);
  }

  lemma SeenAre(s: State, a: AudioId)
    ensures a in Seen(s) <==> a in s.audio && Finished(s.rows, a)
  {
  }

  /** What the plain store has for one audio file is there when readers find something, and is
      made from that file's bytes. */
  predicate Agrees(g: Engine, s: State, t: State, p: map<AudioId, Option<Object>>, a: AudioId) {
    && (a in p <==> a in t.audio && Finished(t.rows, a))
    && (a in p && a in t.audio && t.audio[a].checksum.Some? && g(t.audio[a].checksum.value).Some? ==>
          p[a] == Some(Artifact(g(t.audio[a].checksum.value).value)))
  }

  lemma FinishAgrees(g: Engine, s: State, r: Row, a: AudioId)
    requires Inv(g, s) && RowHolds(g, s, r)
    ensures Agrees(g, s, Persisted(s, r),
                   if r.audio in s.audio then Seen(s)[r.audio := Some(Artifact(g(r.checksum).value))] else Seen(s), a)
  {
    hide HomesKept, HandlersHold, AllDoomedFree, Seen, Pointer, Newest;
    var t := Persisted(s, r);
    SeenAre(s, a);
    assert Finished(t.rows, a) <==> Finished(s.rows, a) || r.audio == a by {
      assert r in t.rows;
      if Finished(s.rows, a) {
        var q :| q in s.rows && q.audio == a;
        assert q in t.rows;
      }
    }
    if a in s.audio && Finished(s.rows, a) {
      SeenIsOwn(g, s, a);
    }
  }

  lemma DeleteAgrees(g: Engine, s: State, e: EpisodeId, a: AudioId)
    requires Inv(g, s)
    ensures Agrees(g, s, Deleted(s, e), map b | b in Seen(s) && b in s.audio && s.audio[b].episode != e :: Seen(s)[b], a)
  {
    hide HomesKept, HandlersHold, AllDoomedFree, Seen, Pointer, Newest, Without;
    SurvivorsMean(s, e);
    SeenAre(s, a);
    if a in s.audio && Finished(s.rows, a) {
      SeenIsOwn(g, s, a);
      var r :| r in s.rows && r.audio == a;
      assert RowHolds(g, s, r);
      assert r in Deleted(s, e).rows <==> s.audio[a].episode != e;
    }
  }

  lemma StillAgrees(g: Engine, s: State, step: Step, a: AudioId)
    requires Inv(g, s) && Enabled(s, step) && !step.Point? && !step.Persist? && !step.Delete?
    ensures Agrees(g, s, After(g, s, step), Seen(s), a)
  {
    hide HomesKept, HandlersHold, AllDoomedFree, Seen, Pointer, Newest;
    SeenAre(s, a);
    var t := After(g, s, step);
    assert t.rows == s.rows;
    if Finished(s.rows, a) {
      var r :| r in s.rows && r.audio == a;
      assert RowHolds(g, s, r);
      if a in s.audio {
        SeenIsOwn(g, s, a);
        assert t.audio[a] == s.audio[a];
      }
    }
  }

  lemma StepAgrees(g: Engine, s: State, step: Step, a: AudioId)
    requires Inv(g, s) && Enabled(s, step)
    ensures Agrees(g, s, After(g, s, step), AfterPlain(g, AsPlain(s), Observed(s, step)).artifacts, a)
  {
    hide Seen, Agrees, Persisted, Finished;
    var p := AfterPlain(g, AsPlain(s), Observed(s, step)).artifacts;
    if step.Delete? {
      DeleteAgrees(g, s, step.e, a);
    } else if step.Point? {
      var w := s.handlers[step.h];
      assert HandlerHolds(g, s, w);
      PointingHolds(g, s, w);
      FinishAgrees(g, s, Row(w.audio, w.episode, w.key, w.checksum), a);
      SameRowsAgree(g, s, Persisted(s, Row(w.audio, w.episode, w.key, w.checksum)), After(g, s, step), p, a);
    } else if step.Persist? {
      var w := s.handlers[step.h];
      assert HandlerHolds(g, s, w);
      if w.audio in s.audio {
        assert AudioHolds(s, w.audio);
        var r := Row(w.audio, w.episode, TranscriptKey(w.episode, w.checksum), w.checksum);
        FinishAgrees(g, s, r, a);
        SameRowsAgree(g, s, Persisted(s, r), After(g, s, step), p, a);
      } else {
        StillAgrees(g, s, Register, a);
        SameRowsAgree(g, s, After(g, s, Register), After(g, s, step), p, a);
      }
    } else {
      StillAgrees(g, s, step, a);
    }
  }

  lemma PointingHolds(g: Engine, s: State, w: Handler)
    requires Inv(g, s) && w.Pointing? && HandlerHolds(g, s, w)
    ensures RowHolds(g, s, Row(w.audio, w.episode, w.key, w.checksum))
  {
    var p :| p in s.rows && p.key == w.key;
    assert RowHolds(g, s, p);
  }

  lemma SameRowsAgree(g: Engine, s: State, t: State, u: State, p: map<AudioId, Option<Object>>, a: AudioId)
    requires Agrees(g, s, t, p, a) && t.rows == u.rows && t.audio == u.audio
    ensures Agrees(g, s, u, p, a)
  {
  }

  lemma SameSeen(g: Engine, s: State, step: Step, a: AudioId)
    requires Inv(g, s) && Enabled(s, step) && Careful(s, step)
    ensures var t := After(g, s, step); var p := AfterPlain(g, AsPlain(s), Observed(s, step)).artifacts;
            (a in Seen(t) <==> a in p) && (a in p ==> Seen(t)[a] == p[a])
  {
    hide Inv, Seen, After, AfterPlain, Finished, Careful, Enabled, Observed, AsPlain;
    var t := After(g, s, step);
    StepKeeps(g, s, step);
    StepAgrees(g, s, step, a);
    SeenAre(t, a);
    if a in Seen(t) {
      SeenIsOwn(g, t, a);
    }
  }

  lemma StepReadsAsPlain(g: Engine, s: State, step: Step)
    requires Inv(g, s) && Enabled(s, step) && Careful(s, step)
    ensures AsPlain(After(g, s, step)) == AfterPlain(g, AsPlain(s), Observed(s, step))
  {
    hide Inv, Seen, After, AfterPlain, Finished, Careful, Enabled, Observed, Agrees;
    SameFiles(g, s, step);
    var t := After(g, s, step);
    var p := AfterPlain(g, AsPlain(s), Observed(s, step)).artifacts;
    forall a ensures (a in Seen(t) <==> a in p) && (a in p ==> Seen(t)[a] == p[a]) {
      SameSeen(g, s, step, a);
    }
    assert Seen(t) == p;
    assert AsPlain(t) == Plain(t.audio, Seen(t));
  }

  lemma SameFiles(g: Engine, s: State, step: Step)
    requires Enabled(s, step)
    ensures After(g, s, step).audio == AfterPlain(g, AsPlain(s), Observed(s, step)).files
  {
    hide Seen, Newest;
  }

  function AllObserved(g: Engine, s: State, steps: seq<Step>): seq<PlainStep>
    decreases |steps|
  {
    if steps == [] || !Enabled(s, steps[0]) then []
    else [Observed(s, steps[0])] + AllObserved(g, After(g, s, steps[0]), steps[1..])
  }

  function PlainRun(g: Engine, p: Plain, steps: seq<PlainStep>): Plain
    decreases |steps|
  {
    if steps == [] then p else PlainRun(g, AfterPlain(g, p, steps[0]), steps[1..])
  }

  /** Shared artifacts, cache hits and best-effort deletes are invisible: over any run, what
      readers find is what the plain store, going its own way through the same uploads,
      finished transcriptions and deletions, would hold. */
  lemma {:induction false} RunReadsAsPlain(g: Engine, s: State, steps: seq<Step>, t: State)
    requires Inv(g, s) && Runs(g, s, steps, t)
    ensures AsPlain(t) == PlainRun(g, AsPlain(s), AllObserved(g, s, steps))
    decreases |steps|
  {
    hide Inv, After, Enabled, Careful, AsPlain, AfterPlain, Observed;
    if steps != [] {
      var next := After(g, s, steps[0]);
      StepKeeps(g, s, steps[0]);
      StepReadsAsPlain(g, s, steps[0]);
      RunReadsAsPlain(g, next, steps[1..], t);
      assert ([Observed(s, steps[0])] + AllObserved(g, next, steps[1..]))[1..] == AllObserved(g, next, steps[1..]);
    }
  }

  // ---- what leaks

  function KeyOf(w: Handler): Key { TranscriptKey(w.episode, w.checksum) }

  /** The handler has uploaded its artifact and will insert a pointer to it. */
  predicate WillPoint(s: State, h: HandlerId) {
    h in s.handlers && s.handlers[h].Saved? && s.handlers[h].audio in s.audio
  }

  /** The artifact is pointed at, on its way out, or about to be pointed at. */
  predicate Accounted(s: State, k: Key) {
    Referenced(s.rows, k) || k in s.doomed || exists h :: h in s.handlers && WillPoint(s, h) && KeyOf(s.handlers[h]) == k
  }

  predicate NothingLeaked(s: State) {
    forall k :: k in s.storage && k.TranscriptKey? ==> Accounted(s, k)
  }

  /** A crash between upload and insert, of the only one to account for the artifact; an upload
      for audio already deleted, accounted for by nobody; the deletion of an episode between
      such an upload and its insert; and a storage delete that fails on an artifact. */
  predicate Leaks(g: Engine, s: State, step: Step)
    requires Enabled(s, step)
  {
    match step
    case Crash(h) =>
      && WillPoint(s, h) && !Referenced(s.rows, KeyOf(s.handlers[h])) && KeyOf(s.handlers[h]) !in s.doomed
      && forall i :: i in s.handlers && i != h && WillPoint(s, i) ==> KeyOf(s.handlers[i]) != KeyOf(s.handlers[h])
    case Transcribe(h) =>
      g(s.handlers[h].checksum).Some? && s.handlers[h].audio !in s.audio && !Accounted(s, KeyOf(s.handlers[h]))
    case Delete(e) =>
      exists h :: h in s.handlers && WillPoint(s, h) && s.handlers[h].episode == e && !Referenced(s.rows, KeyOf(s.handlers[h]))
    case Drop(k, ok) => !ok && k.TranscriptKey? && k in s.storage
    case _ => false
  }

  lemma DeleteLeavesAccounted(g: Engine, s: State, e: EpisodeId, k: Key)
    requires HandlersHold(g, s) && Enabled(s, Delete(e)) && !Leaks(g, s, Delete(e)) && Accounted(s, k)
    ensures Accounted(Deleted(s, e), k)
  {
    var t := Deleted(s, e);
    SurvivorsMean(s, e);
    if Referenced(s.rows, k) {
      OrphansMean(s.rows, e, k);
      if Shared(s.rows, k, e) {
        var r :| r in s.rows && r.key == k && r.episode != e;
        assert r in t.rows;
      }
    } else if k !in s.doomed {
      var h :| h in s.handlers && WillPoint(s, h) && KeyOf(s.handlers[h]) == k;
      assert HandlerHolds(g, s, s.handlers[h]);
      assert h in t.handlers && WillPoint(t, h);
    }
  }

  lemma CrashLeavesAccounted(g: Engine, s: State, h: HandlerId, k: Key)
    requires Enabled(s, Crash(h)) && !Leaks(g, s, Crash(h)) && Accounted(s, k)
    ensures Accounted(After(g, s, Crash(h)), k)
  {
    var t := After(g, s, Crash(h));
    if !Referenced(s.rows, k) && k !in s.doomed {
      var i :| i in s.handlers && WillPoint(s, i) && KeyOf(s.handlers[i]) == k;
      if i == h {
        var j :| j in s.handlers && j != h && WillPoint(s, j) && KeyOf(s.handlers[j]) == k;
        assert j in t.handlers && WillPoint(t, j);
      } else {
        assert i in t.handlers && WillPoint(t, i);
      }
    }
  }

  /** A handler that finishes puts a row in the place of its own account. */
  lemma FinishLeavesAccounted(g: Engine, s: State, step: Step, k: Key)
    requires HandlersHold(g, s) && Enabled(s, step) && (step.Persist? || step.Point?) && Accounted(s, k)
    ensures Accounted(After(g, s, step), k)
  {
    var t := After(g, s, step);
    if Referenced(s.rows, k) {
      var r :| r in s.rows && r.key == k;
      assert r in t.rows;
    } else if k !in s.doomed {
      var h :| h in s.handlers && WillPoint(s, h) && KeyOf(s.handlers[h]) == k;
      var w := s.handlers[h];
      assert HandlerHolds(g, s, w);
      if h == step.h {
        assert Row(w.audio, w.episode, k, w.checksum) in t.rows;
      } else {
        assert h in t.handlers && WillPoint(t, h);
      }
    }
  }

  /** The other steps touch no row, no doomed key but a dropped one, and no finished handler. */
  lemma OthersLeaveAccounted(g: Engine, s: State, step: Step, k: Key)
    requires Enabled(s, step) && !step.Delete? && !step.Crash? && !step.Persist? && !step.Point? && Accounted(s, k)
    requires step.Drop? ==> step.k != k
    ensures Accounted(After(g, s, step), k)
  {
    hide Newest;
    var t := After(g, s, step);
    assert t.rows == s.rows;
    if !Referenced(s.rows, k) && k !in s.doomed {
      var h :| h in s.handlers && WillPoint(s, h) && KeyOf(s.handlers[h]) == k;
      assert h in t.handlers && WillPoint(t, h);
    }
  }

  lemma StaysAccounted(g: Engine, s: State, step: Step, k: Key)
    requires HandlersHold(g, s) && Enabled(s, step) && !Leaks(g, s, step) && Accounted(s, k)
    requires k.TranscriptKey? && k in s.storage && k in After(g, s, step).storage
    ensures Accounted(After(g, s, step), k)
  {
    hide Accounted, HandlersHold;
    match step
    case Delete(e) => DeleteLeavesAccounted(g, s, e, k);
    case Crash(h) => CrashLeavesAccounted(g, s, h, k);
    case Persist(_) => FinishLeavesAccounted(g, s, step, k);
    case Point(_) => FinishLeavesAccounted(g, s, step, k);
    case _ => OthersLeaveAccounted(g, s, step, k);
  }

  /** An upload for living audio is accounted for by its handler. */
  lemma UploadAccounted(g: Engine, s: State, h: HandlerId)
    requires Enabled(s, Transcribe(h)) && !Leaks(g, s, Transcribe(h)) && g(s.handlers[h].checksum).Some?
    ensures Accounted(After(g, s, Transcribe(h)), KeyOf(s.handlers[h]))
  {
    var t := After(g, s, Transcribe(h));
    if s.handlers[h].audio in s.audio {
      assert h in t.handlers && WillPoint(t, h) && KeyOf(t.handlers[h]) == KeyOf(s.handlers[h]);
    } else {
      OthersLeaveAccounted(g, s, Transcribe(h), KeyOf(s.handlers[h]));
    }
  }

  lemma StepLeaksNothing(g: Engine, s: State, step: Step)
    requires Inv(g, s) && NothingLeaked(s) && Enabled(s, step) && !Leaks(g, s, step)
    ensures NothingLeaked(After(g, s, step))
  {
    hide Accounted, Leaks, Newest, Orphans;
    var t := After(g, s, step);
    forall k | k in t.storage && k.TranscriptKey? ensures Accounted(t, k) {
      if step.Transcribe? && k == KeyOf(s.handlers[step.h]) && g(s.handlers[step.h].checksum).Some? {
        UploadAccounted(g, s, step.h);
      } else {
        StaysAccounted(g, s, step, k);
      }
    }
  }

  lemma DoomedHaveNoHandler(g: Engine, s: State, k: Key, h: HandlerId)
    requires Inv(g, s) && k in s.doomed && k.TranscriptKey? && WillPoint(s, h)
    ensures KeyOf(s.handlers[h]) != k && !Referenced(s.rows, k)
  {
    assert DoomedFree(s, k) && HandlerHolds(g, s, s.handlers[h]) && AudioHolds(s, s.handlers[h].audio);
  }

  lemma DropLeaks(g: Engine, s: State, k: Key)
    requires Inv(g, s) && Enabled(s, Drop(k, false)) && Leaks(g, s, Drop(k, false))
    ensures !NothingLeaked(After(g, s, Drop(k, false)))
  {
    var t := After(g, s, Drop(k, false));
    assert DoomedFree(s, k);
    forall h | h in t.handlers && WillPoint(t, h) ensures KeyOf(t.handlers[h]) != k {
      assert WillPoint(s, h);
      DoomedHaveNoHandler(g, s, k, h);
    }
    assert !Accounted(t, k);
  }

  lemma CrashLeaks(g: Engine, s: State, h: HandlerId)
    requires Inv(g, s) && Enabled(s, Crash(h)) && Leaks(g, s, Crash(h))
    ensures !NothingLeaked(After(g, s, Crash(h)))
  {
    var t := After(g, s, Crash(h));
    assert HandlerHolds(g, s, s.handlers[h]);
    assert forall i :: i in t.handlers ==> t.handlers[i] == s.handlers[i] && (WillPoint(t, i) ==> WillPoint(s, i));
    assert !Accounted(t, KeyOf(s.handlers[h]));
  }

  lemma UploadLeaks(g: Engine, s: State, h: HandlerId)
    requires Enabled(s, Transcribe(h)) && Leaks(g, s, Transcribe(h))
    ensures !NothingLeaked(After(g, s, Transcribe(h)))
  {
    var t := After(g, s, Transcribe(h));
    assert forall i :: i in t.handlers && i != h ==> t.handlers[i] == s.handlers[i] && (WillPoint(t, i) ==> WillPoint(s, i));
    assert !WillPoint(t, h);
    assert !Accounted(t, KeyOf(s.handlers[h]));
  }

  lemma DeleteLeaks(g: Engine, s: State, e: EpisodeId)
    requires Inv(g, s) && Enabled(s, Delete(e)) && Leaks(g, s, Delete(e))
    ensures !NothingLeaked(Deleted(s, e))
  {
    var t := Deleted(s, e);
    var h :| h in s.handlers && WillPoint(s, h) && s.handlers[h].episode == e && !Referenced(s.rows, KeyOf(s.handlers[h]));
    var k := KeyOf(s.handlers[h]);
    assert HandlerHolds(g, s, s.handlers[h]) && AudioHolds(s, s.handlers[h].audio);
    assert k in s.doomed ==> DoomedFree(s, k);
    SurvivorsMean(s, e);
    OrphansMean(s.rows, e, k);
    forall i | i in t.handlers && WillPoint(t, i) ensures KeyOf(t.handlers[i]) != k {
      assert HandlerHolds(g, s, s.handlers[i]);
    }
    assert !Accounted(t, k);
  }

  /** A step leaves an artifact behind in storage, accounted for by nothing, if and only if it
      leaks. */
  lemma NothingLeaksIff(g: Engine, s: State, step: Step)
    requires Inv(g, s) && NothingLeaked(s) && Enabled(s, step)
    ensures NothingLeaked(After(g, s, step)) <==> !Leaks(g, s, step)
  {
    hide Inv, NothingLeaked, Deleted, Transcribed;
    if !Leaks(g, s, step) {
      StepLeaksNothing(g, s, step);
    } else {
      match step
      case Crash(h) => CrashLeaks(g, s, h);
      case Transcribe(h) => UploadLeaks(g, s, h);
      case Delete(e) => DeleteLeaks(g, s, e);
      case Drop(k, _) => DropLeaks(g, s, k);
    }
  }

  ghost predicate NeverLeaks(g: Engine, s: State, steps: seq<Step>)
    decreases |steps|
  {
    steps == [] || (Enabled(s, steps[0]) && !Leaks(g, s, steps[0]) && NeverLeaks(g, After(g, s, steps[0]), steps[1..]))
  }

  ghost predicate AlwaysClean(g: Engine, s: State, steps: seq<Step>)
    decreases |steps|
  {
    NothingLeaked(s) && (steps == [] || (Enabled(s, steps[0]) && AlwaysClean(g, After(g, s, steps[0]), steps[1..])))
  }

  /** Over a whole run, everything in storage is accounted for at every moment if and only if no
      step leaks. */
  lemma {:induction false} AlwaysCleanIff(g: Engine, s: State, steps: seq<Step>, t: State)
    requires Inv(g, s) && NothingLeaked(s) && Runs(g, s, steps, t)
    ensures AlwaysClean(g, s, steps) <==> NeverLeaks(g, s, steps)
    ensures NeverLeaks(g, s, steps) ==> Inv(g, t) && NothingLeaked(t)
    decreases |steps|
  {
    hide Inv, NothingLeaked, After, Enabled, Careful, Leaks;
    if steps != [] {
      var next := After(g, s, steps[0]);
      StepKeeps(g, s, steps[0]);
      NothingLeaksIff(g, s, steps[0]);
      if Leaks(g, s, steps[0]) {
        assert !AlwaysClean(g, next, steps[1..]);
      } else {
        AlwaysCleanIff(g, next, steps[1..], t);
      }
    }
  }

  /** Reference counting without counts: after any run without a leak, once no handler and no
      deletion is underway, the artifacts in storage are exactly those that some row points
      at. */
  lemma StoredIffReferenced(g: Engine, steps: seq<Step>, t: State, k: Key)
    requires Runs(g, EMPTY, steps, t) && NeverLeaks(g, EMPTY, steps)
    requires t.handlers == map[] && t.doomed == {} && k.TranscriptKey?
    ensures k in t.storage <==> Referenced(t.rows, k)
  {
    AlwaysCleanIff(g, EMPTY, steps, t);
    InvServed(g, t);
  }

  // ---- the engine runs only when nothing is cached

  predicate Cached(s: State, c: Checksum) {
    && (exists r :: r in s.rows && r.checksum == c)
    && (forall h :: h in s.handlers && s.handlers[h].Working? ==> s.handlers[h].checksum != c)
  }

  /** A deletion that takes the last row with the checksum. */
  predicate LosesLast(s: State, step: Step, c: Checksum) {
    step.Delete? && forall r :: r in s.rows && r.checksum == c ==> r.episode == step.e
  }

  lemma StepStaysCached(g: Engine, s: State, step: Step, c: Checksum)
    requires Cached(s, c) && Enabled(s, step) && !LosesLast(s, step, c)
    ensures Cached(After(g, s, step), c)
  {
    hide Orphans, Shared, Transcribed, Looked;
    var t := After(g, s, step);
    if step.Delete? {
      SurvivorsMean(s, step.e);
      var r :| r in s.rows && r.checksum == c && r.episode != step.e;
      assert r in t.rows;
    } else if step.Look? {
      LookStaysCached(s, step.h, step.a, c);
    } else if step.Transcribe? {
      TranscribeStaysCached(g, s, step.h, c);
    } else {
      var r :| r in s.rows && r.checksum == c;
      assert r in t.rows;
    }
  }

  lemma LookStaysCached(s: State, h: HandlerId, a: AudioId, c: Checksum)
    requires Cached(s, c) && Enabled(s, Look(h, a))
    ensures Cached(Looked(s, h, a), c)
  {
    NewestMeans(s.rows, s.audio[a].checksum.value);
  }

  lemma TranscribeStaysCached(g: Engine, s: State, h: HandlerId, c: Checksum)
    requires Cached(s, c) && Enabled(s, Transcribe(h))
    ensures Cached(Transcribed(g, s, h), c)
  {
    assert Transcribed(g, s, h).rows == s.rows;
  }

  lemma EngineCalls(g: Engine, s: State, step: Step, c: Checksum)
    requires Cached(s, c) && Enabled(s, step)
    ensures s.runs <= After(g, s, step).runs && c !in After(g, s, step).runs[|s.runs|..]
  {
    hide Newest, Orphans, Without;
    if step.Transcribe? {
      assert s.handlers[step.h].checksum != c;
      assert After(g, s, step).runs == s.runs + [s.handlers[step.h].checksum];
    } else {
      assert After(g, s, step).runs == s.runs;
    }
  }

  ghost predicate NeverLost(g: Engine, s: State, steps: seq<Step>, c: Checksum)
    decreases |steps|
  {
    steps == [] || (Enabled(s, steps[0]) && !LosesLast(s, steps[0], c) && NeverLost(g, After(g, s, steps[0]), steps[1..], c))
  }

  lemma RunsAfter(a: seq<Checksum>, b: seq<Checksum>, d: seq<Checksum>, c: Checksum)
    requires a <= b <= d && c !in b[|a|..] && c !in d[|b|..]
    ensures a <= d && c !in d[|a|..]
  {
    assert forall i :: 0 <= i < |a| ==> a[i] == b[i] == d[i];
    assert forall i :: |a| <= i < |b| ==> d[i] == b[i] == b[|a|..][i - |a|];
    assert forall i :: |b| <= i < |d| ==> d[i] == d[|b|..][i - |b|];
  }

  /** Once some audio with these bytes has its row, the engine never sees the bytes again,
      whoever uploads them and whatever is deleted, as long as no deletion takes the last row
      with their checksum. */
  lemma {:induction false} NeverTranscribedAgain(g: Engine, s: State, steps: seq<Step>, t: State, c: Checksum)
    requires Cached(s, c) && Runs(g, s, steps, t) && NeverLost(g, s, steps, c)
    ensures s.runs <= t.runs && c !in t.runs[|s.runs|..]
    decreases |steps|
  {
    hide Cached, After, Enabled, Careful, LosesLast;
    if steps != [] {
      var u := After(g, s, steps[0]);
      StepStaysCached(g, s, steps[0], c);
      EngineCalls(g, s, steps[0], c);
      NeverTranscribedAgain(g, u, steps[1..], t, c);
      RunsAfter(s.runs, u.runs, t.runs, c);
    }
  }

  /** And a deletion can lead to the bytes being transcribed again if and only if it takes that
      last row. */
  lemma TranscribedAgainIff(g: Engine, s: State, e: EpisodeId, c: Checksum)
    requires Inv(g, s) && Cached(s, c) && Enabled(s, Delete(e))
    ensures LosesLast(s, Delete(e), c) <==>
            exists steps: seq<Step>, t: State ::
              Runs(g, Deleted(s, e), steps, t) && NeverLost(g, Deleted(s, e), steps, c)
              && s.runs <= t.runs && c in t.runs[|s.runs|..]
  {
    var u := Deleted(s, e);
    if LosesLast(s, Delete(e), c) {
      SurvivorsMean(s, e);
      var h := Above(u.handlers.Keys);
      AgainFrom(g, u, h, c);
    } else {
      StepStaysCached(g, s, Delete(e), c);
      forall steps: seq<Step>, t: State | Runs(g, u, steps, t) && NeverLost(g, u, steps, c) && s.runs <= t.runs
        ensures c !in t.runs[|s.runs|..]
      {
        NeverTranscribedAgain(g, u, steps, t, c);
      }
    }
  }

  lemma {:induction false} Above(ids: set<nat>) returns (h: nat)
    ensures forall i :: i in ids ==> i < h
    decreases ids
  {
    h := 0;
    if ids != {} {
      var i :| i in ids;
      var above := Above(ids - {i});
      h := if above > i then above else i + 1;
      assert forall k :: k in ids ==> k == i || k in ids - {i};
    }
  }

  /** With no row for them, the same bytes uploaded to a new episode are transcribed. */
  lemma AgainFrom(g: Engine, u: State, h: HandlerId, c: Checksum)
    requires h !in u.handlers && forall r :: r in u.rows ==> r.checksum != c
    ensures exists steps: seq<Step>, t: State ::
              Runs(g, u, steps, t) && NeverLost(g, u, steps, c) && u.runs <= t.runs && c in t.runs[|u.runs|..]
  {
    hide Newest;
    NewestMeans(u.rows, c);
    var e, a := u.nextEpisode, u.nextAudio;
    var s1 := After(g, u, Register);
    var s2 := After(g, s1, Target(e));
    var s3 := After(g, s2, Complete(a, c));
    var s4 := After(g, s3, Look(h, a));
    var s5 := After(g, s4, Transcribe(h));
    assert s5.runs == u.runs + [c] && s5.runs[|u.runs|..] == [c];
    RunsNot(g, s5);
    Prepended(g, s4, Transcribe(h), [], s5, c);
    Prepended(g, s3, Look(h, a), [Transcribe(h)] + [], s5, c);
    Prepended(g, s2, Complete(a, c), [Look(h, a)] + ([Transcribe(h)] + []), s5, c);
    Prepended(g, s1, Target(e), [Complete(a, c)] + ([Look(h, a)] + ([Transcribe(h)] + [])), s5, c);
    Prepended(g, u, Register, [Target(e)] + ([Complete(a, c)] + ([Look(h, a)] + ([Transcribe(h)] + []))), s5, c);
  }

  lemma Prepended(g: Engine, s: State, step: Step, steps: seq<Step>, t: State, c: Checksum)
    requires Enabled(s, step) && !step.Delete?
    requires Runs(g, After(g, s, step), steps, t) && NeverLost(g, After(g, s, step), steps, c)
    ensures Runs(g, s, [step] + steps, t) && NeverLost(g, s, [step] + steps, c)
  {
    assert ([step] + steps)[1..] == steps;
  }

  // ---- the operations

  /** Deleting the episode leaves nobody in need of the object: it is one of its uploads, or an
      artifact at which its rows point and nobody else's. */
  ghost predicate NeededOnlyBy(audio: map<AudioId, Audio>, rows: seq<Row>, e: EpisodeId, k: Key) {
    || (k.AudioKey? && k.id in audio && audio[k.id].episode == e)
    || ((exists r :: r in rows && r.key == k) && forall r :: r in rows && r.key == k ==> r.episode == e)
  }

  /** The episode's rows are gone from every table, and nothing else. */
  ghost predicate RowsGone(s: State, t: State, e: EpisodeId) {
    && (forall x :: x in t.stages <==> x in s.stages && x != e)
    && (forall x :: x in t.stages ==> t.stages[x] == s.stages[x])
    && (forall a :: a in t.audio <==> a in s.audio && s.audio[a].episode != e)
    && (forall a :: a in t.audio ==> t.audio[a] == s.audio[a])
    && (forall r :: r in t.rows <==> r in s.rows && r.episode != e)
  }

  /** A transcription that succeeded: the row it inserts, unless the newest for the bytes is its
      own, points at an artifact for them, the cached one if there was one. */
  ghost predicate HasItsRow(g: Engine, s: State, t: State, a: AudioId)
    requires a in s.audio && s.audio[a].checksum.Some? && g(s.audio[a].checksum.value).Some?
  {
    var c, e := s.audio[a].checksum.value, s.audio[a].episode;
    && t.audio == s.audio
    && (if exists r :: r in s.rows && r.checksum == c then t.storage == s.storage
        else t.storage == s.storage[TranscriptKey(e, c) := Artifact(g(c).value)])
    && (|| (t.rows == s.rows && t.stages == s.stages && exists i :: LastFor(s.rows, c, i) && s.rows[i].audio == a)
        || (&& (forall i :: LastFor(s.rows, c, i) ==> s.rows[i].audio != a)
            && (exists k :: k in t.storage && t.storage[k] == Artifact(g(c).value) && t.rows == s.rows + [Row(a, e, k, c)])
            && t.stages == if e in s.stages && s.stages[e] == Registered then s.stages[e := Mixing] else s.stages))
  }

  lemma NeededMean(s: State, e: EpisodeId)
    ensures forall k :: k in AudioKeys(s.audio, e) + Orphans(s.rows, e) <==> NeededOnlyBy(s.audio, s.rows, e, k)
  {
    forall k ensures k in AudioKeys(s.audio, e) + Orphans(s.rows, e) <==> NeededOnlyBy(s.audio, s.rows, e, k) {
      OrphansMean(s.rows, e, k);
    }
  }

  lemma DeletedMeans(s: State, e: EpisodeId)
    ensures RowsGone(s, Deleted(s, e).(doomed := {}), e)
  {
    SurvivorsMean(s, e);
  }

  datatype Failure = NotReady | Undecodable
  datatype Refusal = EpisodeNotFound | CannotDelete

  lemma RunsNot(g: Engine, s: State)
    ensures Runs(g, s, [], s)
  {
  }

  lemma RunsOnce(g: Engine, s: State, step: Step)
    requires Enabled(s, step) && Careful(s, step)
    ensures Runs(g, s, [step], After(g, s, step))
  {
    var t := After(g, s, step);
    assert [step][1..] == [];
    assert Runs(g, t, [], t);
  }

  lemma RunsOn(g: Engine, s: State, step: Step, steps: seq<Step>, t: State)
    requires Enabled(s, step) && Careful(s, step) && Runs(g, After(g, s, step), steps, t)
    ensures Runs(g, s, [step] + steps, t)
  {
    assert ([step] + steps)[1..] == steps;
  }

  lemma CachedServes(g: Engine, s: State, r: Row)
    requires Inv(g, s) && r in s.rows
    ensures g(r.checksum).Some?
  {
    assert RowHolds(g, s, r);
  }

  /** A call that hits the cache: look, then point. */
  lemma CallHits(g: Engine, s: State, a: AudioId)
    requires Inv(g, s) && s.handlers == map[] && a in s.audio && s.audio[a].checksum.Some?
    requires var hit := Newest(s.rows, s.audio[a].checksum.value); hit.Some? && hit.value.audio != a
    ensures var hit := Newest(s.rows, s.audio[a].checksum.value).value;
            var t := Persisted(s, Row(a, s.audio[a].episode, hit.key, s.audio[a].checksum.value));
            Inv(g, t) && exists steps :: Runs(g, s, steps, t)
  {
    hide Inv, Newest;
    var s1 := After(g, s, Look(0, a));
    var s2 := After(g, s1, Point(0));
    assert s2.handlers == s.handlers;
    RunsOnce(g, s1, Point(0));
    RunsOn(g, s, Look(0, a), [Point(0)], s2);
    RunKeeps(g, s, [Look(0, a)] + [Point(0)], s2);
  }

  /** A call that misses: look, run the engine, and if it succeeded, insert the pointer. */
  lemma CallMisses(g: Engine, s: State, a: AudioId)
    requires Inv(g, s) && s.handlers == map[] && a in s.audio && s.audio[a].checksum.Some?
    requires Newest(s.rows, s.audio[a].checksum.value).None?
    ensures var c := s.audio[a].checksum.value;
            var k := TranscriptKey(s.audio[a].episode, c);
            var ran := s.(runs := s.runs + [c]);
            var t := if g(c).None? then ran
                     else Persisted(ran.(storage := s.storage[k := Artifact(g(c).value)]), Row(a, s.audio[a].episode, k, c));
            Inv(g, t) && exists steps :: Runs(g, s, steps, t)
  {
    hide Inv, Newest;
    var s1 := After(g, s, Look(0, a));
    var s2 := After(g, s1, Transcribe(0));
    RunsOnce(g, s1, Transcribe(0));
    if g(s.audio[a].checksum.value).None? {
      assert s2.handlers == s.handlers;
      RunsOn(g, s, Look(0, a), [Transcribe(0)], s2);
      RunKeeps(g, s, [Look(0, a)] + [Transcribe(0)], s2);
    } else {
      var s3 := After(g, s2, Persist(0));
      assert s3.handlers == s.handlers;
      RunsOnce(g, s2, Persist(0));
      RunsOn(g, s1, Transcribe(0), [Persist(0)], s3);
      RunsOn(g, s, Look(0, a), [Transcribe(0)] + [Persist(0)], s3);
      RunKeeps(g, s, [Look(0, a)] + ([Transcribe(0)] + [Persist(0)]), s3);
    }
  }

  lemma HitHasRow(g: Engine, s: State, a: AudioId)
    requires Inv(g, s) && a in s.audio && s.audio[a].checksum.Some? && Newest(s.rows, s.audio[a].checksum.value).Some?
    ensures var hit := Newest(s.rows, s.audio[a].checksum.value).value;
            && g(s.audio[a].checksum.value).Some?
            && HasItsRow(g, s, if hit.audio == a then s else Persisted(s, Row(a, s.audio[a].episode, hit.key, s.audio[a].checksum.value)), a)
  {
    hide Newest, HomesKept, AllDoomedFree, HandlersHold, IdsHold;
    var c := s.audio[a].checksum.value;
    NewestMeans(s.rows, c);
    assert RowHolds(g, s, Newest(s.rows, c).value);
  }

  lemma MissHasRow(g: Engine, s: State, a: AudioId)
    requires a in s.audio && s.audio[a].checksum.Some? && Newest(s.rows, s.audio[a].checksum.value).None?
    requires g(s.audio[a].checksum.value).Some?
    ensures var c := s.audio[a].checksum.value;
            var k := TranscriptKey(s.audio[a].episode, c);
            HasItsRow(g, s, Persisted(s.(runs := s.runs + [c], storage := s.storage[k := Artifact(g(c).value)]), Row(a, s.audio[a].episode, k, c)), a)
  {
    hide Newest;
    NewestMeans(s.rows, s.audio[a].checksum.value);
  }

  lemma {:induction false} DropsAll(g: Engine, s: State, failing: set<Key>)
    ensures exists steps :: Runs(g, s, steps, s.(doomed := {}, storage := s.storage - (s.doomed - failing)))
    decreases s.doomed
  {
    if s.doomed == {} {
      assert s == s.(doomed := {}, storage := s.storage - (s.doomed - failing));
      RunsNot(g, s);
    } else {
      var k :| k in s.doomed;
      var step := Drop(k, k !in failing);
      var u := After(g, s, step);
      DropsAll(g, u, failing);
      var t := s.(doomed := {}, storage := s.storage - (s.doomed - failing));
      assert t == u.(doomed := {}, storage := u.storage - (u.doomed - failing));
      var steps :| Runs(g, u, steps, t);
      RunsOn(g, s, step, steps, t);
    }
  }

  /** What RemoveEpisode leaves behind is reached by the deletion's steps, so it keeps the
      invariant. */
  lemma RemovalIsARun(g: Engine, s: State, e: EpisodeId, failing: set<Key>)
    requires Inv(g, s) && s.handlers == map[] && s.doomed == {} && Enabled(s, Delete(e))
    ensures var gone := AudioKeys(s.audio, e) + Orphans(s.rows, e);
            var t := Deleted(s, e).(doomed := {}, storage := s.storage - (gone - failing));
            Inv(g, t) && exists steps :: Runs(g, s, steps, t)
  {
    hide Inv, Orphans, Without;
    var u := Deleted(s, e);
    DropsAll(g, u, failing);
    var t := u.(doomed := {}, storage := u.storage - (u.doomed - failing));
    assert u.doomed == AudioKeys(s.audio, e) + Orphans(s.rows, e);
    var steps :| Runs(g, u, steps, t);
    RunsOn(g, s, Delete(e), steps, t);
    RunKeeps(g, s, [Delete(e)] + steps, t);
  }

  class Archive {
    var stages: map<EpisodeId, Stage>
    var audio: map<AudioId, Audio>
    var rows: seq<Row>
    var storage: map<Key, Object>
    ghost var nextEpisode: nat
    ghost var nextAudio: nat
    ghost var runs: seq<Checksum>

    ghost function View(): State
      reads this
    {
      State(stages, audio, rows, storage, {}, map[], nextEpisode, nextAudio, runs)
    }

    method Persist(r: Row)
      modifies this
      ensures View() == Persisted(old(View()), r)
      ensures rows == old(rows) + [r]
      ensures stages == if r.episode in old(stages) && old(stages)[r.episode] == Registered
                        then old(stages)[r.episode := Mixing] else old(stages)
    {
      rows := rows + [r];
      if r.episode in stages && stages[r.episode] == Registered {
        assert Permitted(Registered, Mixing, SYSTEM_ROLE);
        stages := stages[r.episode := Mixing];
      }
    }

    /** One uninterrupted call. It is a run of the steps; it runs the engine when no row has the
        checksum, and only then; and if it succeeds the audio file has its row. */
    method TranscribeAudio(g: Engine, a: AudioId, jobSucceeded: bool) returns (r: Result<(), Failure>)
      requires Inv(g, View())
      modifies this
      ensures exists steps :: Runs(g, old(View()), steps, View())
      ensures Inv(g, View())
      ensures jobSucceeded ==> r.Ok? && View() == old(View())
      ensures !jobSucceeded ==> (r == Err(NotReady) <==> !(a in old(audio) && old(audio)[a].checksum.Some?))
      ensures r == Err(NotReady) ==> View() == old(View())
      ensures !jobSucceeded && r != Err(NotReady) ==>
                var c := old(audio)[a].checksum.value;
                && runs == old(runs) + (if Newest(old(rows), c).None? then [c] else [])
                && (r.Ok? <==> g(c).Some?)
                && (r.Ok? ==> Finished(rows, a))
                && (r.Err? ==> rows == old(rows) && storage == old(storage))
                && (r.Ok? ==> HasItsRow(g, old(View()), View(), a))
    {
      hide Inv, After, Enabled, Careful, Newest, HasItsRow;
      ghost var s := View();
      RunsNot(g, s);
      if jobSucceeded {
        return Ok(());
      }
      if a !in audio || audio[a].checksum.None? {
        return Err(NotReady);
      }
      var c, episode := audio[a].checksum.value, audio[a].episode;
      var cached := Newest(rows, c);
      NewestMeans(rows, c);
      if cached.Some? {
        CachedServes(g, s, cached.value);
        if cached.value.audio != a {
          Persist(Row(a, episode, cached.value.key, c));
          CallHits(g, s, a);
          HitHasRow(g, s, a);
          assert Row(a, episode, cached.value.key, c) in rows;
        } else {
          HitHasRow(g, s, a);
        }
        return Ok(());
      }
      var artifact := g(c);
      runs := runs + [c];
      CallMisses(g, s, a);
      if artifact.None? {
        assert View() == s.(runs := s.runs + [c]);
        return Err(Undecodable);
      }
      storage := storage[TranscriptKey(episode, c) := Artifact(artifact.value)];
      Persist(Row(a, episode, TranscriptKey(episode, c), c));
      assert Row(a, episode, TranscriptKey(episode, c), c) in rows;
      MissHasRow(g, s, a);
      return Ok(());
    }

    /** Returns, each once, the keys that no surviving row needs: the episode's own uploads and
        the artifacts that only its rows point at. */
    method DeleteEpisode(e: EpisodeId) returns (r: Result<seq<Key>, Refusal>)
      requires e in stages
      modifies this
      ensures r == Err(CannotDelete) <==> old(stages)[e] == Published
      ensures r.Err? ==> r.error == CannotDelete && View() == old(View())
      ensures r.Ok? ==>
                && (forall i, j :: 0 <= i < j < |r.value| ==> r.value[i] != r.value[j])
                && (forall k :: k in r.value <==> k in AudioKeys(old(audio), e) + Orphans(old(rows), e))
                && (forall k :: k in r.value <==> NeededOnlyBy(old(audio), old(rows), e, k))
                && View() == Deleted(old(View()), e).(doomed := {})
                && RowsGone(old(View()), View(), e) && storage == old(storage)
    {
      hide Without, Shared, NeededOnlyBy, RowsGone;
      if stages[e] == Published {
        return Err(CannotDelete);
      }
      var keys: seq<Key> := [];
      var todo := audio.Keys;
      while todo != {}
        invariant todo <= audio.Keys
        invariant forall i, j :: 0 <= i < j < |keys| ==> keys[i] != keys[j]
        invariant forall k :: k in keys <==> exists a :: a in audio && a !in todo && audio[a].episode == e && k == AudioKey(a)
      {
        var a :| a in todo;
        if audio[a].episode == e {
          assert AudioKey(a) !in keys;
          keys := keys + [AudioKey(a)];
        }
        todo := todo - {a};
      }
      ghost var own := AudioKeys(audio, e);
      assert forall k :: k in keys <==> k in own;
      var i := 0;
      while i < |rows|
        invariant i <= |rows|
        invariant forall i, j :: 0 <= i < j < |keys| ==> keys[i] != keys[j]
        invariant forall k :: k in keys <==> k in own || exists j :: 0 <= j < i && rows[j].episode == e && !Shared(rows, rows[j].key, e) && rows[j].key == k
      {
        if rows[i].episode == e {
          assert rows[i].key !in keys ==> forall j :: 0 <= j < |keys| ==> keys[j] != rows[i].key;
          var shared := Shared(rows, rows[i].key, e);
          if !shared && rows[i].key !in keys {
            keys := keys + [rows[i].key];
          }
        }
        i := i + 1;
      }
      ghost var s := View();
      NeededMean(s, e);
      DeletedMeans(s, e);
      stages := stages - {e};
      audio := AudioWithout(audio, e);
      rows := Without(rows, EpisodeOf(), e);
      return Ok(keys);
    }

    /** The route: rows first, then the objects, and a storage delete that fails only leaves
        its object behind. */
    method RemoveEpisode(e: EpisodeId, failing: set<Key>) returns (r: Result<(), Refusal>)
      modifies this
      ensures r == Err(EpisodeNotFound) <==> e !in old(stages)
      ensures r.Err? ==> View() == old(View())
      ensures r.Ok? <==> e in old(stages) && old(stages)[e] != Published
      ensures r.Ok? ==>
                View() == Deleted(old(View()), e).(
                  doomed := {},
                  storage := old(storage) - (AudioKeys(old(audio), e) + Orphans(old(rows), e) - failing))
                && RowsGone(old(View()), View(), e)
                && (forall k :: k in storage <==> k in old(storage) && (k in failing || !NeededOnlyBy(old(audio), old(rows), e, k)))
                && (forall k :: k in storage ==> storage[k] == old(storage)[k])
    {
      hide Without, Shared, Orphans, NeededOnlyBy;
      if e !in stages {
        return Err(EpisodeNotFound);
      }
      ghost var doomed := AudioKeys(audio, e) + Orphans(rows, e);
      NeededMean(View(), e);
      var deleted := DeleteEpisode(e);
      if deleted.Err? {
        return Err(deleted.error);
      }
      label committed:
      var keys := deleted.value;
      var i := 0;
      while i < |keys|
        invariant i <= |keys|
        invariant stages == old@committed(stages) && audio == old@committed(audio) && rows == old@committed(rows)
        invariant nextEpisode == old@committed(nextEpisode) && nextAudio == old@committed(nextAudio) && runs == old@committed(runs)
        invariant forall k :: k in storage <==> k in old(storage) && (k in failing || k !in keys[..i])
        invariant forall k :: k in storage ==> storage[k] == old(storage)[k]
      {
        if keys[i] !in failing {
          storage := storage - {keys[i]};
        }
        i := i + 1;
      }
      assert storage == old(storage) - (doomed - failing);
      return Ok(());
    }
  }
}
