/**
 The grounding wall (edlo/ai/grounding.py), told in words and times: what the normal forms
 in it are about is taken from Words.dfy, so that nothing here speaks of normalisation.
 */
module Quotes {
  import opened Wrappers
  import opened Text
  import opened Words
  import opened Transcripts
  import opened Grounding

  /** A space is what it is. */
  predicate SpaceIsPlain(u: Unicode) { u.decompose(' ') == [' '] && u.lower(' ') == [' '] }

  function Reading(u: Unicode, s: string): seq<string> { WordsOf(u, Spelled(u, s)) }

  /** What is said in the segments, one after another. */
  function WordsSaid(u: Unicode, segs: seq<Segment>): seq<string> {
    if segs == [] then [] else Reading(u, segs[0].text) + WordsSaid(u, segs[1..])
  }

  lemma SpelledConcat(u: Unicode, a: string, b: string)
    ensures Spelled(u, a + b) == Spelled(u, a) + Spelled(u, b)
  {
    FlatMapConcat(u.decompose, a, b);
    FlatMapConcat(Straight, FlatMap(u.decompose, a), FlatMap(u.decompose, b));
    FlatMapConcat(u.lower, FlatMap(Straight, FlatMap(u.decompose, a)), FlatMap(Straight, FlatMap(u.decompose, b)));
  }

  lemma SpaceBreaksWords(u: Unicode, a: string, b: string)
    requires Sane(u) && SpaceIsPlain(u)
    ensures Reading(u, a + " " + b) == Reading(u, a) + Reading(u, b)
  {
    AtomSpelled(u, ' ');
    SpelledConcat(u, a, " ");
    SpelledConcat(u, a + " ", b);
    WordsBreak(u, Spelled(u, a), ' ', Spelled(u, b));
  }

  /** The words of the joined text are those of the segments: no word runs across two. */
  lemma {:induction false} SpokenWords(u: Unicode, segs: seq<Segment>)
    requires Sane(u) && SpaceIsPlain(u)
    ensures Reading(u, Spoken(segs)) == WordsSaid(u, segs)
  {
    if |segs| > 1 {
      SpokenWords(u, segs[1..]);
      assert segs == [segs[0]] + segs[1..];
      SpokenConcat([segs[0]], segs[1..]);
      assert [segs[0]][1..] == [];
      SpaceBreaksWords(u, segs[0].text, Spoken(segs[1..]));
    } else if |segs| == 1 {
      assert segs[1..] == [] && WordsSaid(u, segs[1..]) == [];
      assert Texts(segs) == [segs[0].text];
    }
  }

  predicate Said(u: Unicode, quote: string, segs: seq<Segment>) {
    WordsIn(Reading(u, quote), WordsSaid(u, segs))
  }

  /** How long a quote is: its words with single spaces between. */
  function QuoteLength(u: Unicode, quote: string): nat { |Joined(Reading(u, quote))| }

  /** Segments lo..hi-1 are those that are heard between two seconds before the candidate and
      two seconds after it. */
  predicate HeardAround(t: Transcript, c: Candidate, lo: nat, hi: nat) {
    && lo <= hi <= |t.segments|
    && forall k :: 0 <= k < |t.segments| ==>
         (lo <= k < hi <==> t.segments[k].endMs > c.startMs - 2000 && t.segments[k].startMs < c.endMs + 2000)
  }

  lemma HeardIsSelected(t: Transcript, c: Candidate, lo: nat, hi: nat)
    requires Valid(t) && HeardAround(t, c, lo, hi)
    ensures Spoken(t.segments[lo..hi]) == TextBetween(t, c.startMs - SLACK_MS, c.endMs + SLACK_MS)
  {
    var segs := t.segments;
    var i, j := Ended(segs, c.startMs - SLACK_MS), Begun(segs, c.endMs + SLACK_MS);
    SelectedIsSlice(segs, c.startMs - SLACK_MS, c.endMs + SLACK_MS);
    if lo < hi {
      HeardIffBetween(t, c, lo, hi, lo);
      HeardIffBetween(t, c, lo, hi, hi - 1);
      if lo > 0 {
        HeardIffBetween(t, c, lo, hi, lo - 1);
      }
      if hi < |segs| {
        HeardIffBetween(t, c, lo, hi, hi);
      }
    } else if i < j {
      HeardIffBetween(t, c, lo, hi, i);
    }
  }

  lemma HeardIffBetween(t: Transcript, c: Candidate, lo: nat, hi: nat, k: nat)
    requires Valid(t) && HeardAround(t, c, lo, hi) && k < |t.segments|
    ensures lo <= k < hi <==> Ended(t.segments, c.startMs - SLACK_MS) <= k < Begun(t.segments, c.endMs + SLACK_MS)
  {
    EndedAt(t.segments, c.startMs - SLACK_MS, k);
    BegunAt(t.segments, c.endMs + SLACK_MS, k);
  }

  /** What `validate` says of a candidate: the first of its rules that is broken, in words and
      times alone. */
  lemma JudgedByWords(w: Wall, c: Candidate, lo: nat, hi: nat)
    requires Sane(w.u) && SpaceIsPlain(w.u) && Valid(w.t) && HeardAround(w.t, c, lo, hi)
    ensures Verdict(w, c) ==
              if c.endMs > w.t.durationMs then Some(TimecodeOutOfRange)
              else if c.startMs >= c.endMs then Some(TimecodeInverted)
              else if QuoteLength(w.u, c.quote) < 8 then Some(QuoteTooShort)
              else if !Said(w.u, c.quote, w.t.segments) then Some(QuoteNotInTranscript)
              else if !Said(w.u, c.quote, w.t.segments[lo..hi]) then Some(QuoteNotAtTimecode)
              else if c.endMs - c.startMs > w.maxSpanMs then Some(SpanTooLong)
              else None
  {
    hide Normalize, IsInfix, Spoken, TextBetween, Spelled, WordsOf, WordsIn, Verdict;
    VerdictUnfolds(w, c);
    NormalFormIsWords(w.u, c.quote);
    HeardIsSelected(w.t, c, lo, hi);
    SpokenWords(w.u, w.t.segments);
    SpokenWords(w.u, w.t.segments[lo..hi]);
    FoundIff(w.u, c.quote, Spoken(w.t.segments));
    FoundIff(w.u, c.quote, Spoken(w.t.segments[lo..hi]));
  }

  lemma InfixSelf(x: string)
    ensures IsInfix(x, x)
  {
    assert Text.At(x, x, 0);
  }

  /** Every word of what is said is part of a word of the transcript. */
  lemma SaidWords(ws: seq<string>, vs: seq<string>, word: string)
    requires WordsIn(ws, vs) && word in ws
    ensures exists v :: v in vs && IsInfix(word, v)
  {
    var k: nat :| k <= |vs| && WordsAt(ws, vs, k);
    var i :| 0 <= i < |ws| && ws[i] == word;
    var v := vs[k + i];
    assert v in vs;
    if 0 < i < |ws| - 1 {
      InfixSelf(word);
    } else if |ws| > 1 {
      assert Text.At(word, v, if i == 0 then |v| - |word| else 0);
    }
  }

  /** A quote with a word that is said nowhere, not even within a longer word, is never kept,
      whatever else is in it, and the reason given is not one of the later rules. */
  lemma FabricatedIsRejected(w: Wall, cs: seq<Candidate>, maxItems: int, c: Candidate, word: string)
    requires Sane(w.u) && SpaceIsPlain(w.u)
    requires word in Reading(w.u, c.quote) && forall v :: v in WordsSaid(w.u, w.t.segments) ==> !IsInfix(word, v)
    ensures c !in Kept(w, cs, maxItems)
    ensures forall r :: r in Rejected(w, cs, maxItems) && r.candidate == c ==>
              r.rule in {TimecodeOutOfRange, TimecodeInverted, QuoteTooShort, QuoteNotInTranscript}
  {
    hide Normalize, IsInfix, Spoken, TextBetween, Spelled, WordsOf, WordsIn, Verdict, Kept, Rejected;
    SpokenWords(w.u, w.t.segments);
    FoundIff(w.u, c.quote, Spoken(w.t.segments));
    if Said(w.u, c.quote, w.t.segments) {
      SaidWords(Reading(w.u, c.quote), WordsSaid(w.u, w.t.segments), word);
    }
    assert Broken(w, QuoteNotInTranscript, c);
    ValidatorSound(w, cs, maxItems);
    forall r | r in Rejected(w, cs, maxItems) && r.candidate == c
      ensures r.rule in {TimecodeOutOfRange, TimecodeInverted, QuoteTooShort, QuoteNotInTranscript}
    {
      assert r.rule != OverCap;
      var k :| 0 <= k < |RULES| && RULES[k] == r.rule && forall i :: 0 <= i < k ==> !Broken(w, RULES[i], c);
      assert RULES[3] == QuoteNotInTranscript;
    }
  }
}
