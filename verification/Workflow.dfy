/**
 An episode's way through the stages (edlo/services/workflow.py): which moves are legal,
 whose they are, and what a whole recorded history therefore looks like.
 */
module Workflow {
  import opened Wrappers

  datatype Stage = Registered | Mixing | PlanReady | Editing | Review | Published | Blocked

  datatype Role = AudioEditor | VideoEditor | Owner

  /** Moves the system makes on its own are made as an owner. */
  const SYSTEM_ROLE := Owner

  function Legal(from: Stage): set<Stage> {
    match from
    case Registered => {Mixing, Blocked}
    case Mixing => {PlanReady, Blocked}
    case PlanReady => {Editing, Mixing, Blocked}
    case Editing => {Review, PlanReady, Blocked}
    case Review => {Published, Editing, Blocked}
    case Published => {}
    case Blocked => {Registered, Mixing, PlanReady, Editing, Review}
  }

  /** Who may move an episode into a stage; no one is listed for the first. */
  function Owners(to: Stage): set<Role> {
    match to
    case Registered => {}
    case Mixing => {AudioEditor, Owner}
    case PlanReady => {VideoEditor, Owner}
    case Editing => {VideoEditor, Owner}
    case Review => {VideoEditor, Owner}
    case Published => {Owner}
    case Blocked => {AudioEditor, VideoEditor, Owner}
  }

  predicate Permitted(from: Stage, to: Stage, role: Role) { to in Legal(from) && role in Owners(to) }

  datatype Move = Move(from: Stage, to: Stage, actor: string, role: Role)

  datatype Error = IllegalTransition | NotPermitted

  /** The stage after a history. */
  function Current(history: seq<Move>): Stage {
    if history == [] then Registered else history[|history| - 1].to
  }

  /** The history is a path of permitted moves from `registered`. */
  ghost predicate Path(history: seq<Move>) {
    forall i :: 0 <= i < |history| ==>
      Permitted(history[i].from, history[i].to, history[i].role) && history[i].from == Current(history[..i])
  }

  class Episode {
    var stage: Stage
    var history: seq<Move>

    ghost predicate Valid()
      reads this
    {
      Path(history) && stage == Current(history)
    }

    constructor ()
      ensures Valid() && history == []
    {
      stage, history := Registered, [];
    }

    /** `to` is None where the name is no stage. Every move is recorded, and a refused one
        leaves no trace. */
    method Transition(to: Option<Stage>, actor: string, role: Role) returns (r: Result<(), Error>)
      requires Valid()
      modifies this
      ensures Valid()
      ensures r == Err(IllegalTransition) <==> to.None? || to.value !in Legal(old(stage))
      ensures r == Err(NotPermitted) <==> to.Some? && to.value in Legal(old(stage)) && role !in Owners(to.value)
      ensures history == old(history) + if r.Ok? then [Move(old(stage), to.value, actor, role)] else []
    {
      if to.None? {
        return Err(IllegalTransition);
      }
      if to.value !in Legal(stage) {
        return Err(IllegalTransition);
      }
      if role !in Owners(to.value) {
        return Err(NotPermitted);
      }
      ghost var was := history;
      history := history + [Move(stage, to.value, actor, role)];
      stage := to.value;
      assert forall i :: 0 <= i < |was| ==> history[..i] == was[..i] && history[i] == was[i];
      assert history[..|was|] == was;
      return Ok(());
    }
  }

  // ---- whole histories

  lemma Chained(history: seq<Move>, i: nat)
    requires Path(history) && i + 1 < |history|
    ensures history[i + 1].from == history[i].to
  {
    assert history[..i + 1][i] == history[i];
  }

  /** An episode is published once, last, by an owner, straight from review; and though the
      moves list going back from `blocked` to `registered`, nobody can make that move. */
  lemma PublishedLastRegisteredNever(history: seq<Move>, i: nat)
    requires Path(history) && i < |history|
    ensures history[i].to != Registered
    ensures history[i].to == Published ==>
              && i == |history| - 1 && history[i].role == Owner && history[i].from == Review
              && i > 0 && history[i - 1].to == Review
  {
    if i + 1 < |history| {
      Chained(history, i);
    }
    if i > 0 {
      Chained(history, i - 1);
    }
    assert i == 0 ==> history[i].from == Current(history[..0]) == Registered;
  }

  // ---- the tables as rules

  predicate OnTheWay(s: Stage) { s != Blocked }

  /** The moves: one stage forward, one back once there is a plan, and out of the way and back to
      any stage short of the last; nothing leaves it once published. */
  lemma LegalIff(from: Stage, to: Stage)
    ensures to in Legal(from) <==>
              && from != Published && from != to
              && (|| to == Blocked
                  || (from == Blocked && to != Published)
                  || (OnTheWay(from) && OnTheWay(to) && Rank(to) == Rank(from) + 1)
                  || (OnTheWay(from) && OnTheWay(to) && Rank(to) + 1 == Rank(from) && Rank(from) >= 2))
  {
  }

  /** Who may make them: the owner all but one; the audio editor until the mix is in; the video
      editor after that; only the owner publishes. */
  lemma OwnersIff(to: Stage, role: Role)
    ensures role in Owners(to) <==>
              && to != Registered
              && match role
                 case Owner => true
                 case AudioEditor => to == Blocked || Rank(to) == 1
                 case VideoEditor => to == Blocked || 2 <= Rank(to) <= 4
  {
  }

  // ---- does publishing pass through every stage?

  function Rank(s: Stage): nat {
    match s
    case Registered => 0
    case Mixing => 1
    case PlanReady => 2
    case Editing => 3
    case Review => 4
    case Published => 5
    case Blocked => 0
  }

  /** The furthest stage a history has been in. */
  function Furthest(history: seq<Move>): nat {
    if history == [] then 0
    else
      var before := Furthest(history[..|history| - 1]);
      var last := Rank(history[|history| - 1].to);
      if last > before then last else before
  }

  lemma {:induction false} FurthestMeans(history: seq<Move>)
    ensures forall i :: 0 <= i < |history| ==> Rank(history[i].to) <= Furthest(history)
    ensures Rank(Current(history)) <= Furthest(history)
    ensures Furthest(history) == 0 || exists i :: 0 <= i < |history| && Rank(history[i].to) == Furthest(history)
  {
    if history != [] {
      var before := history[..|history| - 1];
      FurthestMeans(before);
      forall i | 0 <= i < |history| ensures Rank(history[i].to) <= Furthest(history) {
        assert i < |before| ==> history[i] == before[i];
      }
      if Furthest(before) == Furthest(history) && Furthest(before) != 0 {
        var i :| 0 <= i < |before| && Rank(before[i].to) == Furthest(before);
        assert history[i] == before[i];
      }
    }
  }

  /** The i-th move goes no further than one stage past the furthest so far. */
  predicate SkipsNothing(history: seq<Move>, i: nat)
    requires i < |history|
  {
    Rank(history[i].to) <= Furthest(history[..i]) + 1
  }

  /** Stages are first reached one after another, none skipped, if and only if no resumption
      from `blocked` skips one: no other legal move can. */
  lemma SkippedOnlyByResuming(history: seq<Move>)
    requires Path(history)
    ensures (forall i :: 0 <= i < |history| ==> SkipsNothing(history, i))
            <==> (forall i :: 0 <= i < |history| && history[i].from == Blocked ==> SkipsNothing(history, i))
  {
    forall i | 0 <= i < |history| && history[i].from != Blocked ensures SkipsNothing(history, i) {
      FurthestMeans(history[..i]);
      assert history[i].from == Current(history[..i]);
    }
  }

  /** And then every stage lies behind a published episode. */
  lemma {:induction false} AllStagesPassed(history: seq<Move>, rank: nat)
    requires Path(history) && 1 <= rank <= Furthest(history)
    requires forall i :: 0 <= i < |history| && history[i].from == Blocked ==> SkipsNothing(history, i)
    ensures exists i :: 0 <= i < |history| && Rank(history[i].to) == rank
    decreases |history|
  {
    SkippedOnlyByResuming(history);
    var n := |history| - 1;
    var before := history[..n];
    assert SkipsNothing(history, n);
    if rank <= Furthest(before) {
      forall i | 0 <= i < n
        ensures before[i] == history[i] && before[..i] == history[..i]
        ensures SkipsNothing(history, i) ==> SkipsNothing(before, i)
      {
      }
      AllStagesPassed(before, rank);
      var i :| 0 <= i < |before| && Rank(before[i].to) == rank;
      assert Rank(history[i].to) == rank;
    } else {
      assert Rank(history[n].to) == rank;
    }
  }

  /** A resumption may skip: published after being blocked first thing, with no mix, no plan
      and no edit behind it. */
  lemma PublishedFromNothing() returns (history: seq<Move>)
    ensures Path(history) && Current(history) == Published
    ensures forall i :: 0 <= i < |history| ==> history[i].to !in {Mixing, PlanReady, Editing}
  {
    history := [Move(Registered, Blocked, "a", Owner), Move(Blocked, Review, "a", Owner), Move(Review, Published, "a", Owner)];
    assert history[..1] == [history[0]] && history[..2] == [history[0], history[1]];
  }
}
