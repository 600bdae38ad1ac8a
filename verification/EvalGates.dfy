/**
 The release gates (edlo/evals/run.py) re-check what survived the grounding wall. Here
 they are theorems about it, for every transcript, every set of flags and whatever the
 model proposes.
 */
module EvalGates {
  import opened Wrappers
  import opened Text
  import opened Transcripts
  import opened Grounding
  import Plan

  datatype Case = Case(u: Unicode, t: Transcript, flags: seq<Flag>, cuts: seq<Candidate>, colds: seq<Candidate>,
                       maxCuts: int, maxColdOpens: int)

  function Items(c: Case): seq<Proposed> { Merge(c.u, c.flags, c.cuts, c.t, c.maxCuts).0 }

  function KeptColds(c: Case): seq<Candidate> { Kept(Wall(c.u, c.t, MAX_COLD_OPEN_MS), c.colds, c.maxColdOpens) }

  // ---- the gates, as run_case computes them

  ghost predicate QuoteIn(u: Unicode, quote: string, text: string) { IsInfix(Normalize(u, quote), Normalize(u, text)) }

  ghost predicate GroundedQuotes(c: Case) {
    && (forall i :: i in Items(c) && i.source == Model ==> QuoteIn(c.u, i.quote, Spoken(c.t.segments)))
    && (forall k :: k in KeptColds(c) ==> QuoteIn(c.u, k.quote, Spoken(c.t.segments)))
  }

  ghost predicate QuotesAtCitedTimecode(c: Case) {
    && (forall i :: i in Items(c) && i.source == Model ==> QuoteIn(c.u, i.quote, TextBetween(c.t, i.startMs - 2000, i.endMs + 2000)))
    && (forall k :: k in KeptColds(c) ==> QuoteIn(c.u, k.quote, TextBetween(c.t, k.startMs - 2000, k.endMs + 2000)))
  }

  ghost predicate HumanFlagsPreserved(c: Case) {
    (set i | i in Items(c) && i.source == Human :: i.flagId) == (set f | f in c.flags :: Some(f.id))
  }

  predicate InRange(t: Transcript, startMs: int, endMs: int) { 0 <= startMs < endMs <= t.durationMs }

  ghost predicate TimecodesInRange(c: Case) {
    && (forall i :: i in Items(c) ==> InRange(c.t, i.startMs, i.endMs))
    && (forall k :: k in KeptColds(c) ==> InRange(c.t, k.startMs, k.endMs))
  }

  predicate CutCapRespected(c: Case) {
    |Items(c)| <= (if c.maxCuts > |c.flags| then c.maxCuts else |c.flags|) && |KeptColds(c)| <= c.maxColdOpens
  }

  // ---- what the model is asked to return

  predicate Proposable(c: Candidate) { c.startMs >= 0 && c.endMs > 0 && 0.0 <= c.confidence <= 1.0 }

  lemma ModelItems(c: Case, i: Proposed)
    requires i in Items(c)
    ensures match i.source
            case Human => exists f :: f in c.flags && i == FromFlag(c.t, f)
            case Model => exists k :: k in c.cuts && PassesAll(Wall(c.u, c.t, MAX_SPAN_MS), k) && i == FromCandidate(k)
  {
    hide Normalize, IsInfix, TextBetween, Broken, Kept, Rejected;
    var kept := Kept(Wall(c.u, c.t, MAX_SPAN_MS), c.cuts, Room(c.maxCuts, c.flags));
    ValidatorSound(Wall(c.u, c.t, MAX_SPAN_MS), c.cuts, Room(c.maxCuts, c.flags));
    var p :| 0 <= p < |Items(c)| && Items(c)[p] == i;
    if p < |c.flags| {
      assert c.flags[p] in c.flags;
    } else {
      assert kept[p - |c.flags|] in kept;
    }
  }

  /** The human items are the flags, all of them, first and in order, with the words spoken
      under each; every item after them is the model's. */
  ghost predicate FlagsFirst(c: Case) {
    && |Items(c)| >= |c.flags|
    && (forall p :: 0 <= p < |Items(c)| ==> (Items(c)[p].source == Human <==> p < |c.flags|))
    && (forall p :: 0 <= p < |c.flags| ==>
          && Items(c)[p].flagId == Some(c.flags[p].id) && Items(c)[p].reason == c.flags[p].note
          && Items(c)[p].startMs == c.flags[p].startMs && Items(c)[p].endMs == c.flags[p].endMs
          && Items(c)[p].quote == TextBetween(c.t, c.flags[p].startMs, c.flags[p].endMs))
  }

  /** After the flags come the model's cuts, as proposed, the most confident ones that pass; as
      many as there are, up to the places that the flags leave under the cap. */
  lemma CutsFillTheRest(c: Case)
    ensures var passing := ByConfidence(Passing(Wall(c.u, c.t, MAX_SPAN_MS), c.cuts));
            var places := if c.maxCuts > |c.flags| then c.maxCuts - |c.flags| else 0;
            && |Items(c)| == |c.flags| + (if |passing| <= places then |passing| else places)
            && forall p :: |c.flags| <= p < |Items(c)| ==>
                 var k := passing[p - |c.flags|];
                 Items(c)[p] == Proposed(Model, k.startMs, k.endMs, k.quote, Some(k.note), Some(k.confidence), None)
  {
    hide Normalize, IsInfix, TextBetween, Passing, ByConfidence;
    var kept := Kept(Wall(c.u, c.t, MAX_SPAN_MS), c.cuts, Room(c.maxCuts, c.flags));
    forall p | |c.flags| <= p < |Items(c)| ensures Items(c)[p] == FromCandidate(kept[p - |c.flags|]) {
    }
  }

  lemma FlagsComeFirst(c: Case)
    ensures FlagsFirst(c)
  {
    hide Normalize, IsInfix, TextBetween, Kept, Rejected, PassesAll;
  }

  /** The three gates on quotes and flags hold, always; the other two hold exactly when what
      people put in allows it: no flag reaches outside the audio, which nothing checks when a
      flag is made, and the configured cap is not negative. */
  lemma GatesHold(c: Case)
    requires forall k :: k in c.cuts || k in c.colds ==> Proposable(k)
    ensures GroundedQuotes(c) && QuotesAtCitedTimecode(c) && HumanFlagsPreserved(c) && FlagsFirst(c)
    ensures TimecodesInRange(c) <==> forall f :: f in c.flags ==> InRange(c.t, f.startMs, f.endMs)
    ensures CutCapRespected(c) <==> c.maxColdOpens >= 0
  {
    hide FlagsFirst;
    QuoteGates(c);
    FlagGate(c);
    FlagsComeFirst(c);
    RangeGate(c);
    CapGate(c);
  }

  lemma PassesMeans(w: Wall, k: Candidate)
    requires PassesAll(w, k)
    ensures QuoteIn(w.u, k.quote, Spoken(w.t.segments))
    ensures QuoteIn(w.u, k.quote, TextBetween(w.t, k.startMs - 2000, k.endMs + 2000))
    ensures k.startMs < k.endMs <= w.t.durationMs
  {
    hide Normalize, IsInfix, TextBetween, Spoken;
    assert !Broken(w, QuoteNotInTranscript, k) && !Broken(w, QuoteNotAtTimecode, k);
    assert !Broken(w, TimecodeInverted, k) && !Broken(w, TimecodeOutOfRange, k);
  }

  lemma QuoteGates(c: Case)
    ensures GroundedQuotes(c) && QuotesAtCitedTimecode(c)
  {
    hide QuoteIn, Items, KeptColds, PassesAll;
    forall i | i in Items(c) && i.source == Model
      ensures QuoteIn(c.u, i.quote, Spoken(c.t.segments))
      ensures QuoteIn(c.u, i.quote, TextBetween(c.t, i.startMs - 2000, i.endMs + 2000))
    {
      ModelItems(c, i);
      var k :| k in c.cuts && PassesAll(Wall(c.u, c.t, MAX_SPAN_MS), k) && i == FromCandidate(k);
      PassesMeans(Wall(c.u, c.t, MAX_SPAN_MS), k);
    }
    forall k | k in KeptColds(c)
      ensures QuoteIn(c.u, k.quote, Spoken(c.t.segments))
      ensures QuoteIn(c.u, k.quote, TextBetween(c.t, k.startMs - 2000, k.endMs + 2000))
    {
      ColdsPass(c, k);
      PassesMeans(Wall(c.u, c.t, MAX_COLD_OPEN_MS), k);
    }
  }

  lemma ColdsPass(c: Case, k: Candidate)
    requires k in KeptColds(c)
    ensures k in c.colds && PassesAll(Wall(c.u, c.t, MAX_COLD_OPEN_MS), k)
  {
    hide Broken, Kept, Rejected;
    ValidatorSound(Wall(c.u, c.t, MAX_COLD_OPEN_MS), c.colds, c.maxColdOpens);
  }

  lemma FlagGate(c: Case)
    ensures HumanFlagsPreserved(c)
  {
    hide Normalize, IsInfix, TextBetween, Kept, Rejected, PassesAll;
    var ids := set i | i in Items(c) && i.source == Human :: i.flagId;
    var wanted := set f | f in c.flags :: Some(f.id);
    forall x | x in ids ensures x in wanted {
      var i :| i in Items(c) && i.source == Human && i.flagId == x;
      ModelItems(c, i);
      var f :| f in c.flags && i == FromFlag(c.t, f);
    }
    forall x | x in wanted ensures x in ids {
      var f :| f in c.flags && Some(f.id) == x;
      var p :| 0 <= p < |c.flags| && c.flags[p] == f;
      assert Items(c)[p] == FromFlag(c.t, f);
      assert Items(c)[p] in Items(c);
    }
  }

  lemma RangeGate(c: Case)
    requires forall k :: k in c.cuts || k in c.colds ==> Proposable(k)
    ensures TimecodesInRange(c) <==> forall f :: f in c.flags ==> InRange(c.t, f.startMs, f.endMs)
  {
    hide Normalize, IsInfix, TextBetween, Kept, Rejected, PassesAll, QuoteIn, KeptColds;
    forall k | k in KeptColds(c) ensures InRange(c.t, k.startMs, k.endMs) {
      ColdsPass(c, k);
      PassesMeans(Wall(c.u, c.t, MAX_COLD_OPEN_MS), k);
    }
    forall i | i in Items(c)
      ensures i.source == Model ==> InRange(c.t, i.startMs, i.endMs)
      ensures i.source == Human ==> exists f :: f in c.flags && i == FromFlag(c.t, f)
    {
      ModelItems(c, i);
      if i.source == Model {
        var k :| k in c.cuts && PassesAll(Wall(c.u, c.t, MAX_SPAN_MS), k) && i == FromCandidate(k);
        PassesMeans(Wall(c.u, c.t, MAX_SPAN_MS), k);
      }
    }
    forall f | f in c.flags ensures FromFlag(c.t, f) in Items(c) {
      var p :| 0 <= p < |c.flags| && c.flags[p] == f;
      assert Items(c)[p] == FromFlag(c.t, f);
    }
  }

  lemma CapGate(c: Case)
    ensures CutCapRespected(c) <==> c.maxColdOpens >= 0
  {
    hide Normalize, IsInfix, TextBetween, Kept, Rejected, PassesAll;
    ValidatorSound(Wall(c.u, c.t, MAX_SPAN_MS), c.cuts, Room(c.maxCuts, c.flags));
    ValidatorSound(Wall(c.u, c.t, MAX_COLD_OPEN_MS), c.colds, c.maxColdOpens);
  }

  // ---- of every plan

  function CaseOf(x: Plan.Inputs): Case {
    Case(x.u, x.t, x.flags, Plan.CutsOf(x), Plan.ColdsOf(x), x.maxCuts, x.maxColdOpens)
  }

  /** What is saved as an episode's plan is what the gates are about, so they hold of it; and
      what is counted as rejected is what they reject. */
  lemma PlansPassTheGates(x: Plan.Inputs)
    requires forall k :: k in Plan.CutsOf(x) || k in Plan.ColdsOf(x) ==> Proposable(k)
    requires x.maxColdOpens >= 0 && forall f :: f in x.flags ==> InRange(x.t, f.startMs, f.endMs)
    ensures Items(CaseOf(x)) == Plan.ItemsOf(x) && KeptColds(CaseOf(x)) == Plan.KeptColdsOf(x)
    ensures Plan.KeptColdsOf(x) == Kept(Wall(x.u, x.t, 60_000), Plan.ColdsOf(x), x.maxColdOpens)
    ensures var c := CaseOf(x);
            GroundedQuotes(c) && QuotesAtCitedTimecode(c) && HumanFlagsPreserved(c) && FlagsFirst(c) && TimecodesInRange(c) && CutCapRespected(c)
    ensures multiset(Plan.CutsOf(x)) + multiset(Plan.ColdsOf(x))
            == multiset(Kept(Wall(x.u, x.t, 120_000), Plan.CutsOf(x), Room(x.maxCuts, x.flags)))
               + multiset(Plan.KeptColdsOf(x)) + multiset(Candidates(Plan.RejectedOf(x)))
  {
    hide GroundedQuotes, QuotesAtCitedTimecode, HumanFlagsPreserved, FlagsFirst, TimecodesInRange, CutCapRespected, Kept, Rejected;
    GatesHold(CaseOf(x));
    var w, v := Wall(x.u, x.t, MAX_SPAN_MS), Wall(x.u, x.t, MAX_COLD_OPEN_MS);
    NothingLost(w, Plan.CutsOf(x), Room(x.maxCuts, x.flags));
    NothingLost(v, Plan.ColdsOf(x), x.maxColdOpens);
    CandidatesConcat(Rejected(w, Plan.CutsOf(x), Room(x.maxCuts, x.flags)), Rejected(v, Plan.ColdsOf(x), x.maxColdOpens));
  }
}
