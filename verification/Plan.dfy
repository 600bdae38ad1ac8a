/**
 Generating a plan (edlo/jobs/plan.py): ask the model about each window, validate,
 merge with the human flags, and replace whatever plan the episode had.
 */
module Plan {
  import opened Rows
  import opened Wrappers
  import opened Text
  import opened Transcripts
  import opened Grounding
  import opened Windows
  import opened Workflow

  type EpisodeId = string

  // ---- asking the model

  /** One window's two answers; None where the model's output stayed invalid. */
  datatype Answer = Answer(cuts: Option<seq<Candidate>>, colds: Option<seq<Candidate>>)

  /** Both answers of a window count, or neither. */
  predicate Usable(a: Answer) { a.cuts.Some? && a.colds.Some? }

  function CutsIn(a: Answer): seq<Candidate> { if Usable(a) then a.cuts.value else [] }

  function ColdsIn(a: Answer): seq<Candidate> { if Usable(a) then a.colds.value else [] }

  function AllCuts(answers: seq<Answer>): seq<Candidate> {
    if answers == [] then [] else CutsIn(answers[0]) + AllCuts(answers[1..])
  }

  function AllColds(answers: seq<Answer>): seq<Candidate> {
    if answers == [] then [] else ColdsIn(answers[0]) + AllColds(answers[1..])
  }

  lemma {:induction false} AllCutsAppend(answers: seq<Answer>, a: Answer)
    ensures AllCuts(answers + [a]) == AllCuts(answers) + CutsIn(a)
  {
    hide CutsIn;
    if answers == [] {
      assert (answers + [a])[1..] == [];
    } else {
      assert (answers + [a])[1..] == answers[1..] + [a];
      AllCutsAppend(answers[1..], a);
      Assoc(CutsIn(answers[0]), AllCuts(answers[1..]), CutsIn(a));
    }
  }

  lemma {:induction false} AllColdsAppend(answers: seq<Answer>, a: Answer)
    ensures AllColds(answers + [a]) == AllColds(answers) + ColdsIn(a)
  {
    hide ColdsIn;
    if answers == [] {
      assert (answers + [a])[1..] == [];
    } else {
      assert (answers + [a])[1..] == answers[1..] + [a];
      AllColdsAppend(answers[1..], a);
      Assoc(ColdsIn(answers[0]), AllColds(answers[1..]), ColdsIn(a));
    }
  }

  method Propose(answers: seq<Answer>) returns (cuts: seq<Candidate>, colds: seq<Candidate>)
    ensures cuts == AllCuts(answers) && colds == AllColds(answers)
  {
    cuts, colds := [], [];
    var i := 0;
    while i < |answers|
      invariant i <= |answers|
      invariant cuts == AllCuts(answers[..i]) && colds == AllColds(answers[..i])
    {
      var a := answers[i];
      i := i + 1;
      assert answers[..i] == answers[..i - 1] + [a];
      AllCutsAppend(answers[..i - 1], a);
      AllColdsAppend(answers[..i - 1], a);
      if a.cuts.None? {
        continue;
      }
      if a.colds.None? {
        continue;
      }
      cuts := cuts + a.cuts.value;
      colds := colds + a.colds.value;
    }
    assert answers[..i] == answers;
  }

  /** A candidate is taken from a window exactly when both of its answers are there. */
  lemma {:induction false} ProposedIff(answers: seq<Answer>, k: Candidate)
    ensures k in AllCuts(answers) <==> exists i :: 0 <= i < |answers| && answers[i].colds.Some? && answers[i].cuts.Some? && k in answers[i].cuts.value
    ensures k in AllColds(answers) <==> exists i :: 0 <= i < |answers| && answers[i].colds.Some? && answers[i].cuts.Some? && k in answers[i].colds.value
  {
    if answers != [] {
      ProposedIff(answers[1..], k);
      assert forall i :: 0 <= i < |answers[1..]| ==> answers[1..][i] == answers[i + 1];
      assert forall i :: 0 < i < |answers| ==> answers[i] == answers[1..][i - 1];
    }
  }

  // ---- counting rejections

  /** Counter(r.rule for r in rejected) */
  function Count(rs: seq<Rejection>, rule: Rule): nat {
    if rs == [] then 0 else (if rs[0].rule == rule then 1 else 0) + Count(rs[1..], rule)
  }

  const EVERY_RULE: set<Rule> :=
    {TimecodeOutOfRange, TimecodeInverted, QuoteTooShort, QuoteNotInTranscript, QuoteNotAtTimecode, SpanTooLong, OverCap}

  function Counted(rs: seq<Rejection>): map<Rule, nat> {
    map rule | rule in EVERY_RULE && Count(rs, rule) > 0 :: Count(rs, rule)
  }

  function Entry(counts: map<Rule, nat>, rule: Rule): nat { if rule in counts then counts[rule] else 0 }

  function Total(counts: map<Rule, nat>): nat {
    Entry(counts, TimecodeOutOfRange) + Entry(counts, TimecodeInverted) + Entry(counts, QuoteTooShort)
    + Entry(counts, QuoteNotInTranscript) + Entry(counts, QuoteNotAtTimecode) + Entry(counts, SpanTooLong)
    + Entry(counts, OverCap)
  }

  lemma {:induction false} CountsAddUp(rs: seq<Rejection>)
    ensures Count(rs, TimecodeOutOfRange) + Count(rs, TimecodeInverted) + Count(rs, QuoteTooShort)
            + Count(rs, QuoteNotInTranscript) + Count(rs, QuoteNotAtTimecode) + Count(rs, SpanTooLong)
            + Count(rs, OverCap) == |rs|
  {
    if rs != [] {
      CountsAddUp(rs[1..]);
    }
  }

  function RulesOf(rs: seq<Rejection>): seq<Rule> { seq(|rs|, i requires 0 <= i < |rs| => rs[i].rule) }

  lemma {:induction false} CountIs(rs: seq<Rejection>, rule: Rule)
    ensures Count(rs, rule) == multiset(RulesOf(rs))[rule]
  {
    if rs != [] {
      CountIs(rs[1..], rule);
      assert RulesOf(rs) == [rs[0].rule] + RulesOf(rs[1..]);
    }
  }

  /** The counts on a plan: each rule that rejected something, with how often. */
  lemma CountedMeans(rs: seq<Rejection>, rule: Rule)
    ensures rule in Counted(rs) <==> exists r :: r in rs && r.rule == rule
    ensures rule in Counted(rs) ==> Counted(rs)[rule] == multiset(RulesOf(rs))[rule]
  {
    CountIs(rs, rule);
    assert rule in EVERY_RULE && (rule in multiset(RulesOf(rs)) <==> rule in RulesOf(rs));
    if r :| r in rs && r.rule == rule {
      var i: nat :| i < |rs| && rs[i] == r;
      assert RulesOf(rs)[i] == rule;
    }
    if rule in RulesOf(rs) {
      var i: nat :| i < |rs| && RulesOf(rs)[i] == rule;
      assert rs[i] in rs;
    }
  }

  lemma TotalIsAll(rs: seq<Rejection>)
    ensures Total(Counted(rs)) == |rs|
  {
    CountsAddUp(rs);
    assert forall rule :: rule in EVERY_RULE ==> Entry(Counted(rs), rule) == Count(rs, rule);
  }

  // ---- rows

  datatype Status = Ready | AiDisabled

  datatype PlanRow = PlanRow(
    episode: EpisodeId, status: Status, promptVersion: string, model: string, windows: nat, proposed: nat,
    rejections: map<Rule, nat>)

  datatype CutRow = CutRow(episode: EpisodeId, position: nat, item: Proposed)

  datatype ColdRow = ColdRow(episode: EpisodeId, position: nat, candidate: Candidate)

  datatype StepRow = StepRow(episode: EpisodeId, position: nat, text: string)

  datatype FlagRow = FlagRow(episode: EpisodeId, flag: Flag)

  /** A transcripts row, with the artifact that its pointer leads to; newer rows come later. */
  datatype TranscriptRow = TranscriptRow(episode: EpisodeId, artifact: Transcript)

  const CHECKLIST: seq<string> :=
    ["Cut to the accepted list", "Drop in the picked cold open", "Balance the final mix against the rough",
     "Title card and end slate", "Export at the agreed settings", "Upload the final mix"]

  function EpisodeOfPlan(): PlanRow -> EpisodeId { (r: PlanRow) => r.episode }
  function EpisodeOfCut(): CutRow -> EpisodeId { (r: CutRow) => r.episode }
  function EpisodeOfCold(): ColdRow -> EpisodeId { (r: ColdRow) => r.episode }
  function EpisodeOfStep(): StepRow -> EpisodeId { (r: StepRow) => r.episode }
  function EpisodeOfFlag(): FlagRow -> EpisodeId { (r: FlagRow) => r.episode }
  function EpisodeOfTranscript(): TranscriptRow -> EpisodeId { (r: TranscriptRow) => r.episode }

  function CutRows(e: EpisodeId, items: seq<Proposed>): seq<CutRow> {
    seq(|items|, i requires 0 <= i < |items| => CutRow(e, i, items[i]))
  }

  function ColdRows(e: EpisodeId, kept: seq<Candidate>): seq<ColdRow> {
    seq(|kept|, i requires 0 <= i < |kept| => ColdRow(e, i, kept[i]))
  }

  function Checklist(e: EpisodeId): seq<StepRow> {
    seq(|CHECKLIST|, i requires 0 <= i < |CHECKLIST| => StepRow(e, i, CHECKLIST[i]))
  }

  // ---- the plan

  /** `answers` is None when the model is switched off; `model` is its name, or its provider's. */
  datatype Settings = Settings(
    u: Unicode, answers: Option<seq<Answer>>, maxCuts: int, maxColdOpens: int, promptVersion: string, model: string)

  /** What a plan is made from. */
  datatype Inputs = Inputs(
    u: Unicode, t: Transcript, flags: seq<Flag>, answers: Option<seq<Answer>>, maxCuts: int, maxColdOpens: int,
    promptVersion: string, model: string)

  function InsertedByStart(f: Flag, fs: seq<Flag>): seq<Flag> {
    if fs == [] || f.startMs < fs[0].startMs then [f] + fs else [fs[0]] + InsertedByStart(f, fs[1..])
  }

  /** The flags of the rows, ordered by their start. */
  function ByStart(rows: seq<FlagRow>): seq<Flag> {
    if rows == [] then [] else InsertedByStart(rows[|rows| - 1].flag, ByStart(rows[..|rows| - 1]))
  }

  function Flags(rows: seq<FlagRow>): seq<Flag> { seq(|rows|, i requires 0 <= i < |rows| => rows[i].flag) }

  predicate InStartOrder(fs: seq<Flag>) { forall i, j :: 0 <= i < j < |fs| ==> fs[i].startMs <= fs[j].startMs }

  lemma {:induction false} InsertedByStartKeepsAll(f: Flag, fs: seq<Flag>)
    ensures multiset(InsertedByStart(f, fs)) == multiset(fs) + multiset{f}
  {
    if fs != [] && fs[0].startMs <= f.startMs {
      InsertedByStartKeepsAll(f, fs[1..]);
      assert fs == [fs[0]] + fs[1..];
    }
  }

  lemma {:induction false} InsertedByStartInOrder(f: Flag, fs: seq<Flag>)
    requires InStartOrder(fs)
    ensures var r := InsertedByStart(f, fs);
            InStartOrder(r) && r != [] && (r[0] == f || (fs != [] && r[0] == fs[0]))
  {
    if fs != [] && fs[0].startMs <= f.startMs {
      assert InStartOrder(fs[1..]) && (|fs| > 1 ==> fs[1..][0] == fs[1]);
      InsertedByStartInOrder(f, fs[1..]);
      var rest := InsertedByStart(f, fs[1..]);
      assert fs[0].startMs <= rest[0].startMs;
      assert forall i :: 0 <= i < |rest| ==> rest[0].startMs <= rest[i].startMs;
    }
  }

  lemma {:induction false} ByStartInOrder(rows: seq<FlagRow>)
    ensures InStartOrder(ByStart(rows))
  {
    if rows != [] {
      ByStartInOrder(rows[..|rows| - 1]);
      InsertedByStartInOrder(rows[|rows| - 1].flag, ByStart(rows[..|rows| - 1]));
    }
  }

  lemma {:induction false} ByStartKeepsAll(rows: seq<FlagRow>)
    ensures multiset(ByStart(rows)) == multiset(Flags(rows))
  {
    hide InsertedByStart;
    if rows != [] {
      var before, last := rows[..|rows| - 1], rows[|rows| - 1].flag;
      ByStartKeepsAll(before);
      InsertedByStartKeepsAll(last, ByStart(before));
      assert Flags(rows) == Flags(before) + [last];
    }
  }

  /** Every flag of the episode goes into the plan, once, in the order of their starts. */
  lemma ByStartRight(rows: seq<FlagRow>)
    ensures InStartOrder(ByStart(rows)) && multiset(ByStart(rows)) == multiset(Flags(rows))
  {
    ByStartInOrder(rows);
    ByStartKeepsAll(rows);
  }

  /** What the plan for an episode is made from; None when it has no transcript yet. */
  function InputsFor(e: EpisodeId, transcripts: seq<TranscriptRow>, flags: seq<FlagRow>, st: Settings): Option<Inputs> {
    var own := Of(transcripts, EpisodeOfTranscript(), e);
    if own == [] then None
    else Some(Inputs(st.u, own[|own| - 1].artifact, ByStart(Of(flags, EpisodeOfFlag(), e)), st.answers, st.maxCuts,
                     st.maxColdOpens, st.promptVersion, st.model))
  }

  /** The newest transcript of the episode, and all of its flags, nobody else's. */
  lemma InputsMean(e: EpisodeId, transcripts: seq<TranscriptRow>, flags: seq<FlagRow>, st: Settings)
    ensures var x := InputsFor(e, transcripts, flags, st);
            && (x.Some? <==> exists r :: r in transcripts && r.episode == e)
            && (x.Some? ==>
                  && (exists i :: 0 <= i < |transcripts| && transcripts[i].episode == e && transcripts[i].artifact == x.value.t
                                  && forall j :: i < j < |transcripts| ==> transcripts[j].episode != e)
                  && InStartOrder(x.value.flags)
                  && (forall f :: f in x.value.flags <==> FlagRow(e, f) in flags)
                  && x.value.u == st.u && x.value.answers == st.answers && x.value.maxCuts == st.maxCuts
                  && x.value.maxColdOpens == st.maxColdOpens && x.value.promptVersion == st.promptVersion && x.value.model == st.model)
  {
    hide Of, ByStart;
    var own := Of(transcripts, EpisodeOfTranscript(), e);
    if own != [] {
      var i := LastOf(transcripts, EpisodeOfTranscript(), e);
      assert transcripts[i] in transcripts;
    }
    forall r ensures r in own <==> r in transcripts && r.episode == e {
      OfMeans(transcripts, EpisodeOfTranscript(), e, r);
    }
    if r :| r in transcripts && r.episode == e {
      assert r in own;
    }
    var ownFlags := Of(flags, EpisodeOfFlag(), e);
    ByStartRight(ownFlags);
    forall f ensures f in ByStart(ownFlags) <==> FlagRow(e, f) in flags {
      OfMeans(flags, EpisodeOfFlag(), e, FlagRow(e, f));
      FlagsOf(flags, e, f);
    }
  }

  lemma FlagsOf(flags: seq<FlagRow>, e: EpisodeId, f: Flag)
    ensures f in ByStart(Of(flags, EpisodeOfFlag(), e)) <==> FlagRow(e, f) in Of(flags, EpisodeOfFlag(), e)
  {
    hide Of, ByStart;
    var own := Of(flags, EpisodeOfFlag(), e);
    ByStartRight(own);
    assert f in ByStart(own) <==> f in multiset(ByStart(own));
    assert f in Flags(own) <==> f in multiset(Flags(own));
    if f in Flags(own) {
      var i :| 0 <= i < |own| && Flags(own)[i] == f;
      OfMeans(flags, EpisodeOfFlag(), e, own[i]);
      assert own[i] == FlagRow(e, f);
    }
    if FlagRow(e, f) in own {
      var i :| 0 <= i < |own| && own[i] == FlagRow(e, f);
      assert Flags(own)[i] == f;
    }
  }

  function CutsOf(x: Inputs): seq<Candidate> { if x.answers.Some? then AllCuts(x.answers.value) else [] }

  function ColdsOf(x: Inputs): seq<Candidate> { if x.answers.Some? then AllColds(x.answers.value) else [] }

  /** With the model on, the candidates are those of the windows with both answers; off, none. */
  lemma CandidatesAreProposed(x: Inputs, k: Candidate)
    ensures k in CutsOf(x) <==>
              x.answers.Some? && exists i :: 0 <= i < |x.answers.value| && x.answers.value[i].colds.Some?
                                             && x.answers.value[i].cuts.Some? && k in x.answers.value[i].cuts.value
    ensures k in ColdsOf(x) <==>
              x.answers.Some? && exists i :: 0 <= i < |x.answers.value| && x.answers.value[i].colds.Some?
                                             && x.answers.value[i].cuts.Some? && k in x.answers.value[i].colds.value
  {
    if x.answers.Some? {
      ProposedIff(x.answers.value, k);
    }
  }

  function ItemsOf(x: Inputs): seq<Proposed> { Merge(x.u, x.flags, CutsOf(x), x.t, x.maxCuts).0 }

  function KeptColdsOf(x: Inputs): seq<Candidate> { Kept(Wall(x.u, x.t, MAX_COLD_OPEN_MS), ColdsOf(x), x.maxColdOpens) }

  function RejectedOf(x: Inputs): seq<Rejection> {
    Merge(x.u, x.flags, CutsOf(x), x.t, x.maxCuts).1
    + Rejected(Wall(x.u, x.t, MAX_COLD_OPEN_MS), ColdsOf(x), x.maxColdOpens)
  }

  function PlanOf(e: EpisodeId, x: Inputs): PlanRow {
    PlanRow(e, if x.answers.Some? then Ready else AiDisabled, x.promptVersion, if x.answers.Some? then x.model else "",
            |WindowsFrom(Cut(x.t, WINDOW_MS, OVERLAP_MS), 0, 0)|,
            |CutsOf(x)| + |ColdsOf(x)|, Counted(RejectedOf(x)))
  }

  /** Every candidate the model proposed is on the plan or in its rejection counts; so with the
      model off the plan is the human flags and nothing else. */
  lemma PlanAccountsForEverything(e: EpisodeId, x: Inputs)
    ensures var modelCuts := |ItemsOf(x)| - |x.flags|;
            && modelCuts >= 0
            && PlanOf(e, x).proposed == modelCuts + |KeptColdsOf(x)| + Total(PlanOf(e, x).rejections)
            && (x.answers.None? ==> modelCuts == 0 && KeptColdsOf(x) == [] && Total(PlanOf(e, x).rejections) == 0)
  {
    hide Kept, Rejected;
    NothingLost(Wall(x.u, x.t, MAX_SPAN_MS), CutsOf(x), Room(x.maxCuts, x.flags));
    NothingLost(Wall(x.u, x.t, MAX_COLD_OPEN_MS), ColdsOf(x), x.maxColdOpens);
    TotalIsAll(RejectedOf(x));
  }

  /** The plan's row: what the model was asked, and what came of it. */
  ghost predicate IsPlanOf(row: PlanRow, e: EpisodeId, x: Inputs) {
    && row.episode == e && row.promptVersion == x.promptVersion
    && (if x.answers.None? then row.status == AiDisabled && row.model == "" else row.status == Ready && row.model == x.model)
    && row.windows == |WindowsFrom(Cut(x.t, 300_000, 30_000), 0, 0)|
    && row.proposed == |CutsOf(x)| + |ColdsOf(x)|
    && forall rule ::
         && (rule in row.rejections <==> exists r :: r in RejectedOf(x) && r.rule == rule)
         && (rule in row.rejections ==> row.rejections[rule] == multiset(RulesOf(RejectedOf(x)))[rule])
  }

  class PlanStore {
    var plans: seq<PlanRow>
    var cuts: seq<CutRow>
    var colds: seq<ColdRow>
    var steps: seq<StepRow>
    var stages: map<EpisodeId, Stage>
    var flags: seq<FlagRow>
    var transcripts: seq<TranscriptRow>

    /** The second half of the handler: reduce, validate and replace. */
    method SavePlan(e: EpisodeId, x: Inputs)
      modifies this`plans, this`cuts, this`colds, this`steps, this`stages
      ensures plans == Without(old(plans), EpisodeOfPlan(), e) + [PlanOf(e, x)]
      ensures cuts == Without(old(cuts), EpisodeOfCut(), e) + CutRows(e, ItemsOf(x))
      ensures colds == Without(old(colds), EpisodeOfCold(), e) + ColdRows(e, KeptColdsOf(x))
      ensures steps == old(steps) + if Of(old(steps), EpisodeOfStep(), e) == [] then Checklist(e) else []
      ensures stages == if e in old(stages) && old(stages)[e] == Mixing then old(stages)[e := PlanReady] else old(stages)
    {
      hide Normalize, IsInfix, TextBetween, Broken, Kept, Rejected, WindowsFrom, Counted, AllCuts, AllColds, Without, Of;
      var windows := MakeWindows(x.t);
      var cutCandidates: seq<Candidate>, coldCandidates: seq<Candidate> := [], [];
      var status, model := AiDisabled, "";
      if x.answers.Some? {
        cutCandidates, coldCandidates := Propose(x.answers.value);
        status, model := Ready, x.model;
      }
      var (items, rejected) := Merge(x.u, x.flags, cutCandidates, x.t, x.maxCuts);
      var keptColds, rejectedColds := Validate(x.u, coldCandidates, x.t, x.maxColdOpens, MAX_COLD_OPEN_MS);
      plans := Without(plans, EpisodeOfPlan(), e);
      cuts := Without(cuts, EpisodeOfCut(), e);
      colds := Without(colds, EpisodeOfCold(), e);
      plans := plans + [PlanRow(e, status, x.promptVersion, model, |windows|, |cutCandidates| + |coldCandidates|,
                                Counted(rejected + rejectedColds))];
      cuts := cuts + CutRows(e, items);
      colds := colds + ColdRows(e, keptColds);
      if Of(steps, EpisodeOfStep(), e) == [] {
        steps := steps + Checklist(e);
      }
      if e in stages && stages[e] == Mixing {
        assert Permitted(Mixing, PlanReady, SYSTEM_ROLE);
        stages := stages[e := PlanReady];
      }
    }

    /** The handler. Without a transcript it fails for good and changes nothing; otherwise it
        leaves the episode exactly one plan, made from its newest transcript and its own flags,
        and other episodes theirs; the checklist is seeded once and then left alone. */
    method GeneratePlan(e: EpisodeId, st: Settings, ghost other: EpisodeId) returns (ok: bool)
      modifies this`plans, this`cuts, this`colds, this`steps, this`stages
      ensures ok <==> InputsFor(e, transcripts, flags, st).Some?
      ensures !ok ==> plans == old(plans) && cuts == old(cuts) && colds == old(colds) && steps == old(steps) && stages == old(stages)
      ensures ok ==>
                var x := InputsFor(e, transcripts, flags, st).value;
                && Of(plans, EpisodeOfPlan(), e) == [PlanOf(e, x)]
                && Of(cuts, EpisodeOfCut(), e) == CutRows(e, ItemsOf(x))
                && Of(colds, EpisodeOfCold(), e) == ColdRows(e, KeptColdsOf(x))
                && stages == if e in old(stages) && old(stages)[e] == Mixing then old(stages)[e := PlanReady] else old(stages)
      ensures other != e ==>
        && Of(plans, EpisodeOfPlan(), other) == old(Of(plans, EpisodeOfPlan(), other))
        && Of(cuts, EpisodeOfCut(), other) == old(Of(cuts, EpisodeOfCut(), other))
        && Of(colds, EpisodeOfCold(), other) == old(Of(colds, EpisodeOfCold(), other))
      ensures old(Of(steps, EpisodeOfStep(), e)) != [] ==> steps == old(steps)
      ensures ok && old(Of(steps, EpisodeOfStep(), e)) == [] ==> steps == old(steps) + Checklist(e)
    {
      hide Normalize, IsInfix, TextBetween, Broken, Kept, Rejected, PlanOf, IsPlanOf, ItemsOf, KeptColdsOf, ByStart;
      var inputs := InputsFor(e, transcripts, flags, st);
      if inputs.None? {
        return false;
      }
      var x := inputs.value;
      ghost var plans0, cuts0, colds0 := plans, cuts, colds;
      SavePlan(e, x);
      assert [PlanOf(e, x)][0].episode == e by {
        PlanRowsMean(e, x);
      }
      ReplacesOnlyItsOwn(plans0, [PlanOf(e, x)], EpisodeOfPlan(), e, e);
      ReplacesOnlyItsOwn(plans0, [PlanOf(e, x)], EpisodeOfPlan(), e, other);
      ReplacesOnlyItsOwn(cuts0, CutRows(e, ItemsOf(x)), EpisodeOfCut(), e, e);
      ReplacesOnlyItsOwn(cuts0, CutRows(e, ItemsOf(x)), EpisodeOfCut(), e, other);
      ReplacesOnlyItsOwn(colds0, ColdRows(e, KeptColdsOf(x)), EpisodeOfCold(), e, e);
      ReplacesOnlyItsOwn(colds0, ColdRows(e, KeptColdsOf(x)), EpisodeOfCold(), e, other);
      return true;
    }
  }

  /** The rows: the plan's own, the cuts and cold opens numbered in order, and the checklist. */
  lemma PlanRowsMean(e: EpisodeId, x: Inputs)
    ensures PlanOf(e, x).episode == e && IsPlanOf(PlanOf(e, x), e, x)
    ensures |CutRows(e, ItemsOf(x))| == |ItemsOf(x)|
    ensures forall i :: 0 <= i < |ItemsOf(x)| ==> CutRows(e, ItemsOf(x))[i] == CutRow(e, i, ItemsOf(x)[i])
    ensures |ColdRows(e, KeptColdsOf(x))| == |KeptColdsOf(x)|
    ensures forall i :: 0 <= i < |KeptColdsOf(x)| ==> ColdRows(e, KeptColdsOf(x))[i] == ColdRow(e, i, KeptColdsOf(x)[i])
    ensures |Checklist(e)| == 6 && forall i :: 0 <= i < 6 ==> Checklist(e)[i] == StepRow(e, i, CHECKLIST[i])
  {
    hide ItemsOf, KeptColdsOf;
    hide WindowsFrom, RejectedOf, CutsOf, ColdsOf;
    forall rule
      ensures rule in Counted(RejectedOf(x)) <==> exists r :: r in RejectedOf(x) && r.rule == rule
      ensures rule in Counted(RejectedOf(x)) ==> Counted(RejectedOf(x))[rule] == multiset(RulesOf(RejectedOf(x)))[rule]
    {
      CountedMeans(RejectedOf(x), rule);
    }
  }
}
