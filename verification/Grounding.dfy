/**
 The grounding wall (edlo/ai/grounding.py): what a model proposes reaches the plan only
 through these rules.
 */
module Grounding {
  import opened Wrappers
  import opened Text
  import opened Transcripts

  /** A cut or a cold open; `note` is its `reason` or its `why`. */
  datatype Candidate = Candidate(startMs: int, endMs: int, quote: string, confidence: real, note: string)

  datatype Rule =
    | TimecodeOutOfRange
    | TimecodeInverted
    | QuoteTooShort
    | QuoteNotInTranscript
    | QuoteNotAtTimecode
    | SpanTooLong
    | OverCap

  datatype Rejection = Rejection(candidate: Candidate, rule: Rule)

  const RULES: seq<Rule> :=
    [TimecodeOutOfRange, TimecodeInverted, QuoteTooShort, QuoteNotInTranscript, QuoteNotAtTimecode, SpanTooLong]

  const SLACK_MS: int := 2000
  const MIN_QUOTE: nat := 8
  const MAX_SPAN_MS: int := 120_000
  const MAX_COLD_OPEN_MS: int := 60_000

  // ---- the rules

  /** Where and against what candidates are checked. */
  datatype Wall = Wall(u: Unicode, t: Transcript, maxSpanMs: int)

  predicate Broken(w: Wall, rule: Rule, c: Candidate) {
    match rule
    case TimecodeOutOfRange => c.endMs > w.t.durationMs
    case TimecodeInverted => c.startMs >= c.endMs
    case QuoteTooShort => |Normalize(w.u, c.quote)| < MIN_QUOTE
    case QuoteNotInTranscript => !IsInfix(Normalize(w.u, c.quote), Normalize(w.u, Spoken(w.t.segments)))
    case QuoteNotAtTimecode =>
      !IsInfix(Normalize(w.u, c.quote), Normalize(w.u, TextBetween(w.t, c.startMs - SLACK_MS, c.endMs + SLACK_MS)))
    case SpanTooLong => c.endMs - c.startMs > w.maxSpanMs
    case OverCap => false
  }

  function FirstBroken(w: Wall, rules: seq<Rule>, c: Candidate): Option<Rule> {
    if rules == [] then None else if Broken(w, rules[0], c) then Some(rules[0]) else FirstBroken(w, rules[1..], c)
  }

  function Verdict(w: Wall, c: Candidate): Option<Rule> { FirstBroken(w, RULES, c) }

  function Passing(w: Wall, cs: seq<Candidate>): seq<Candidate> {
    if cs == [] then []
    else (if Verdict(w, cs[0]).None? then [cs[0]] else []) + Passing(w, cs[1..])
  }

  function Refused(w: Wall, cs: seq<Candidate>): seq<Rejection> {
    if cs == [] then []
    else (if Verdict(w, cs[0]).Some? then [Rejection(cs[0], Verdict(w, cs[0]).value)] else []) + Refused(w, cs[1..])
  }

  // ---- sorting by confidence

  /** Before the equally confident: the inserted candidate was proposed earlier. */
  function Inserted(c: Candidate, s: seq<Candidate>): seq<Candidate> {
    if s == [] || c.confidence >= s[0].confidence then [c] + s else [s[0]] + Inserted(c, s[1..])
  }

  /** `sort(key=confidence, reverse=True)`: most confident first, ties in proposal order. */
  function ByConfidence(s: seq<Candidate>): seq<Candidate> {
    if s == [] then [] else Inserted(s[0], ByConfidence(s[1..]))
  }

  ghost predicate Descending(s: seq<Candidate>) {
    forall i, j :: 0 <= i < j < |s| ==> s[i].confidence >= s[j].confidence
  }

  function AtLevel(s: seq<Candidate>, v: real): seq<Candidate> {
    if s == [] then [] else (if s[0].confidence == v then [s[0]] else []) + AtLevel(s[1..], v)
  }

  lemma {:induction false} InsertedKeepsAll(c: Candidate, s: seq<Candidate>)
    ensures multiset(Inserted(c, s)) == multiset([c] + s)
  {
    if s != [] && c.confidence < s[0].confidence {
      InsertedKeepsAll(c, s[1..]);
      assert [c] + s == [c] + [s[0]] + s[1..];
    }
  }

  lemma {:induction false} InsertedKeepsLevel(c: Candidate, s: seq<Candidate>, v: real)
    ensures AtLevel(Inserted(c, s), v) == AtLevel([c] + s, v)
  {
    assert ([c] + s)[1..] == s;
    if s != [] && c.confidence < s[0].confidence {
      InsertedKeepsLevel(c, s[1..], v);
      var r := Inserted(c, s[1..]);
      assert ([s[0]] + r)[1..] == r && ([c] + s[1..])[1..] == s[1..];
    }
  }

  lemma {:induction false} InsertedRight(c: Candidate, s: seq<Candidate>)
    requires Descending(s)
    ensures Descending(Inserted(c, s))
  {
    if s != [] && c.confidence < s[0].confidence {
      InsertedRight(c, s[1..]);
      InsertedKeepsAll(c, s[1..]);
      var r := Inserted(c, s[1..]);
      forall i | 0 <= i < |r| ensures s[0].confidence >= r[i].confidence {
        assert r[i] in multiset([c] + s[1..]);
      }
    }
  }

  lemma {:induction false} ByConfidenceRight(s: seq<Candidate>)
    ensures Descending(ByConfidence(s)) && multiset(ByConfidence(s)) == multiset(s)
    ensures forall v :: AtLevel(ByConfidence(s), v) == AtLevel(s, v)
  {
    if s != [] {
      ByConfidenceRight(s[1..]);
      var r := ByConfidence(s[1..]);
      InsertedRight(s[0], r);
      InsertedKeepsAll(s[0], r);
      assert s == [s[0]] + s[1..] && ([s[0]] + r)[1..] == r;
      forall v ensures AtLevel(ByConfidence(s), v) == AtLevel(s, v) {
        InsertedKeepsLevel(s[0], r, v);
      }
    }
  }

  lemma {:induction false} LevelOfHead(s: seq<Candidate>, v: real)
    requires Descending(s) && AtLevel(s, v) != []
    ensures s != [] && s[0].confidence >= v
    ensures s[0].confidence == v ==> AtLevel(s, v)[0] == s[0]
  {
    if s[0].confidence != v {
      LevelOfHead(s[1..], v);
    }
  }

  lemma HeadHasLevel(s: seq<Candidate>)
    ensures s != [] ==> exists v :: AtLevel(s, v) != []
  {
    assert s != [] ==> AtLevel(s, s[0].confidence) != [];
  }

  /** There is one descending order of the same candidates that keeps ties in order. */
  lemma {:induction false} OneStableOrder(a: seq<Candidate>, b: seq<Candidate>)
    requires Descending(a) && Descending(b) && forall v :: AtLevel(a, v) == AtLevel(b, v)
    ensures a == b
  {
    if a == [] {
      HeadHasLevel(b);
    } else {
      var v := a[0].confidence;
      assert AtLevel(a, v) != [];
      LevelOfHead(b, v);
      LevelOfHead(a, b[0].confidence);
      LevelOfHead(a, v);
      assert a[0] == b[0];
      forall x ensures AtLevel(a[1..], x) == AtLevel(b[1..], x) {
        var head := if v == x then [a[0]] else [];
        assert AtLevel(a, x) == head + AtLevel(a[1..], x) && AtLevel(b, x) == head + AtLevel(b[1..], x);
        assert AtLevel(a, x)[|head|..] == AtLevel(a[1..], x);
        assert AtLevel(b, x)[|head|..] == AtLevel(b[1..], x);
      }
      OneStableOrder(a[1..], b[1..]);
    }
  }

  // ---- validate

  /** How much of a list of length n the slice `[:limit]` takes. */
  function SliceEnd(limit: int, n: nat): (k: nat)
    ensures k <= n && (limit >= 0 ==> k <= limit) && (k < n && limit >= 0 ==> k == limit)
  {
    if limit < 0 then (if n + limit > 0 then n + limit else 0) else if limit < n then limit else n
  }

  function OverTheCap(cs: seq<Candidate>): seq<Rejection> {
    if cs == [] then [] else [Rejection(cs[0], OverCap)] + OverTheCap(cs[1..])
  }

  function Kept(w: Wall, cs: seq<Candidate>, maxItems: int): seq<Candidate> {
    var sorted := ByConfidence(Passing(w, cs));
    sorted[..SliceEnd(maxItems, |sorted|)]
  }

  function Rejected(w: Wall, cs: seq<Candidate>, maxItems: int): seq<Rejection> {
    var sorted := ByConfidence(Passing(w, cs));
    Refused(w, cs) + OverTheCap(sorted[SliceEnd(maxItems, |sorted|)..])
  }

  lemma {:induction false} PassingAppend(w: Wall, cs: seq<Candidate>, c: Candidate)
    ensures Passing(w, cs + [c]) == Passing(w, cs) + if Verdict(w, c).None? then [c] else []
    ensures Refused(w, cs + [c]) == Refused(w, cs) + if Verdict(w, c).Some? then [Rejection(c, Verdict(w, c).value)] else []
  {
    if cs == [] {
      assert (cs + [c])[1..] == [];
    } else {
      assert (cs + [c])[1..] == cs[1..] + [c];
      PassingAppend(w, cs[1..], c);
    }
  }

  lemma VerdictUnfolds(w: Wall, c: Candidate)
    ensures Verdict(w, c) ==
      if Broken(w, TimecodeOutOfRange, c) then Some(TimecodeOutOfRange)
      else if Broken(w, TimecodeInverted, c) then Some(TimecodeInverted)
      else if Broken(w, QuoteTooShort, c) then Some(QuoteTooShort)
      else if Broken(w, QuoteNotInTranscript, c) then Some(QuoteNotInTranscript)
      else if Broken(w, QuoteNotAtTimecode, c) then Some(QuoteNotAtTimecode)
      else if Broken(w, SpanTooLong, c) then Some(SpanTooLong)
      else None
  {
    hide Broken;
    var r5 := [SpanTooLong];
    var r4 := [QuoteNotAtTimecode] + r5;
    var r3 := [QuoteNotInTranscript] + r4;
    var r2 := [QuoteTooShort] + r3;
    var r1 := [TimecodeInverted] + r2;
    assert r5[1..] == [] && r4[1..] == r5 && r3[1..] == r4 && r2[1..] == r3 && r1[1..] == r2 && RULES[1..] == r1;
    assert FirstBroken(w, r5, c) == if Broken(w, SpanTooLong, c) then Some(SpanTooLong) else None;
    assert FirstBroken(w, r4, c) == if Broken(w, QuoteNotAtTimecode, c) then Some(QuoteNotAtTimecode) else FirstBroken(w, r5, c);
    assert FirstBroken(w, r3, c) == if Broken(w, QuoteNotInTranscript, c) then Some(QuoteNotInTranscript) else FirstBroken(w, r4, c);
    assert FirstBroken(w, r2, c) == if Broken(w, QuoteTooShort, c) then Some(QuoteTooShort) else FirstBroken(w, r3, c);
    assert FirstBroken(w, r1, c) == if Broken(w, TimecodeInverted, c) then Some(TimecodeInverted) else FirstBroken(w, r2, c);
  }

  method Validate(u: Unicode, candidates: seq<Candidate>, transcript: Transcript, maxItems: int, maxSpanMs: int := MAX_SPAN_MS)
    returns (kept: seq<Candidate>, rejected: seq<Rejection>)
    ensures var w := Wall(u, transcript, maxSpanMs);
            kept == Kept(w, candidates, maxItems) && rejected == Rejected(w, candidates, maxItems)
  {
    hide Normalize, IsInfix, TextBetween, Spoken, Verdict;
    ghost var w := Wall(u, transcript, maxSpanMs);
    kept, rejected := [], [];
    var full := Normalize(u, Spoken(transcript.segments));
    var i := 0;
    while i < |candidates|
      invariant i <= |candidates|
      invariant kept == Passing(w, candidates[..i]) && rejected == Refused(w, candidates[..i])
    {
      var c := candidates[i];
      i := i + 1;
      assert candidates[..i] == candidates[..i - 1] + [c];
      PassingAppend(w, candidates[..i - 1], c);
      VerdictUnfolds(w, c);
      if c.endMs > transcript.durationMs {
        rejected := rejected + [Rejection(c, TimecodeOutOfRange)];
        continue;
      }
      if c.startMs >= c.endMs {
        rejected := rejected + [Rejection(c, TimecodeInverted)];
        continue;
      }
      var q := Normalize(u, c.quote);
      if |q| < MIN_QUOTE {
        rejected := rejected + [Rejection(c, QuoteTooShort)];
        continue;
      }
      if !IsInfix(q, full) {
        rejected := rejected + [Rejection(c, QuoteNotInTranscript)];
        continue;
      }
      var local := Normalize(u, TextBetween(transcript, c.startMs - SLACK_MS, c.endMs + SLACK_MS));
      if !IsInfix(q, local) {
        rejected := rejected + [Rejection(c, QuoteNotAtTimecode)];
        continue;
      }
      if c.endMs - c.startMs > maxSpanMs {
        rejected := rejected + [Rejection(c, SpanTooLong)];
        continue;
      }
      kept := kept + [c];
    }
    assert candidates[..i] == candidates;
    kept := ByConfidence(kept);
    var end := SliceEnd(maxItems, |kept|);
    rejected := rejected + OverTheCap(kept[end..]);
    kept := kept[..end];
  }

  // ---- soundness and conservation

  function Candidates(rs: seq<Rejection>): seq<Candidate> {
    if rs == [] then [] else [rs[0].candidate] + Candidates(rs[1..])
  }

  lemma {:induction false} CandidatesConcat(a: seq<Rejection>, b: seq<Rejection>)
    ensures Candidates(a + b) == Candidates(a) + Candidates(b)
  {
    if a == [] {
      assert a + b == b;
    } else {
      assert (a + b)[1..] == a[1..] + b;
      CandidatesConcat(a[1..], b);
    }
  }

  lemma {:induction false} OverTheCapIsAll(cs: seq<Candidate>)
    ensures Candidates(OverTheCap(cs)) == cs && |OverTheCap(cs)| == |cs|
    ensures forall i :: 0 <= i < |cs| ==> OverTheCap(cs)[i] == Rejection(cs[i], OverCap)
  {
    if cs != [] {
      OverTheCapIsAll(cs[1..]);
      assert ([Rejection(cs[0], OverCap)] + OverTheCap(cs[1..]))[1..] == OverTheCap(cs[1..]);
    }
  }

  lemma {:induction false} Split(w: Wall, cs: seq<Candidate>)
    ensures multiset(cs) == multiset(Passing(w, cs)) + multiset(Candidates(Refused(w, cs)))
    ensures |cs| == |Passing(w, cs)| + |Refused(w, cs)|
  {
    hide Verdict;
    if cs != [] {
      var passing, refused := Passing(w, cs[1..]), Refused(w, cs[1..]);
      Split(w, cs[1..]);
      assert cs == [cs[0]] + cs[1..];
      if Verdict(w, cs[0]).Some? {
        var head := Rejection(cs[0], Verdict(w, cs[0]).value);
        assert Passing(w, cs) == passing && Refused(w, cs) == [head] + refused;
        assert ([head] + refused)[1..] == refused;
        assert Candidates([head] + refused) == [cs[0]] + Candidates(refused);
      } else {
        assert Passing(w, cs) == [cs[0]] + passing && Refused(w, cs) == refused;
      }
    }
  }

  /** Every candidate is either kept or rejected, and none is both or twice. */
  lemma NothingLost(w: Wall, cs: seq<Candidate>, maxItems: int)
    ensures multiset(cs) == multiset(Kept(w, cs, maxItems)) + multiset(Candidates(Rejected(w, cs, maxItems)))
    ensures |cs| == |Kept(w, cs, maxItems)| + |Rejected(w, cs, maxItems)|
  {
    hide Passing, Refused, ByConfidence, OverTheCap, Candidates;
    var sorted := ByConfidence(Passing(w, cs));
    var k := SliceEnd(maxItems, |sorted|);
    Split(w, cs);
    ByConfidenceRight(Passing(w, cs));
    assert sorted == sorted[..k] + sorted[k..];
    OverTheCapIsAll(sorted[k..]);
    CandidatesConcat(Refused(w, cs), OverTheCap(sorted[k..]));
    assert |multiset(sorted)| == |multiset(Passing(w, cs))|;
  }

  ghost predicate PassesAll(w: Wall, c: Candidate) {
    forall rule :: !Broken(w, rule, c)
  }

  /** The rule is broken and no rule before it is. */
  ghost predicate BreaksFirst(w: Wall, rule: Rule, c: Candidate) {
    exists k :: 0 <= k < |RULES| && RULES[k] == rule && Broken(w, rule, c) && forall i :: 0 <= i < k ==> !Broken(w, RULES[i], c)
  }

  lemma {:induction false} FirstBrokenIsFirst(w: Wall, rules: seq<Rule>, c: Candidate)
    ensures match FirstBroken(w, rules, c)
            case None => forall i :: 0 <= i < |rules| ==> !Broken(w, rules[i], c)
            case Some(rule) => exists k :: 0 <= k < |rules| && rules[k] == rule && Broken(w, rule, c)
                                 && forall i :: 0 <= i < k ==> !Broken(w, rules[i], c)
  {
    if rules != [] && !Broken(w, rules[0], c) {
      FirstBrokenIsFirst(w, rules[1..], c);
      match FirstBroken(w, rules[1..], c)
      case None =>
        forall i | 0 <= i < |rules| ensures !Broken(w, rules[i], c) {
          assert i > 0 ==> rules[i] == rules[1..][i - 1];
        }
      case Some(rule) =>
        var k :| 0 <= k < |rules[1..]| && rules[1..][k] == rule && Broken(w, rule, c)
          && forall i :: 0 <= i < k ==> !Broken(w, rules[1..][i], c);
        forall i | 0 <= i < k + 1 ensures !Broken(w, rules[i], c) {
          assert i > 0 ==> rules[i] == rules[1..][i - 1];
        }
        assert rules[k + 1] == rule;
    }
  }

  lemma VerdictMeans(w: Wall, c: Candidate)
    ensures Verdict(w, c).None? <==> PassesAll(w, c)
    ensures Verdict(w, c).Some? ==> BreaksFirst(w, Verdict(w, c).value, c)
  {
    FirstBrokenIsFirst(w, RULES, c);
    if Verdict(w, c).None? {
      forall rule ensures !Broken(w, rule, c) {
        assert rule in RULES || rule == OverCap;
      }
    }
  }

  lemma {:induction false} MembersOfSplit(w: Wall, cs: seq<Candidate>)
    ensures forall c :: c in Passing(w, cs) <==> c in cs && PassesAll(w, c)
    ensures forall r :: r in Refused(w, cs) ==> r.candidate in cs && BreaksFirst(w, r.rule, r.candidate)
  {
    if cs != [] {
      MembersOfSplit(w, cs[1..]);
      VerdictMeans(w, cs[0]);
    }
  }

  /** What is kept passed every rule, most confident first and no more than the cap; what
      is rejected is labelled with the first rule it breaks, or, if it breaks none, gave
      way to a full list of candidates at least as confident. */
  lemma ValidatorSound(w: Wall, cs: seq<Candidate>, maxItems: int)
    ensures var kept, rejected := Kept(w, cs, maxItems), Rejected(w, cs, maxItems);
            && Descending(kept) && (maxItems >= 0 ==> |kept| <= maxItems)
            && (forall c :: c in kept ==> c in cs && PassesAll(w, c))
            && (forall r :: r in rejected && r.rule != OverCap ==> r.candidate in cs && BreaksFirst(w, r.rule, r.candidate))
            && (forall r :: r in rejected && r.rule == OverCap ==>
                  && r.candidate in cs && PassesAll(w, r.candidate)
                  && (maxItems >= 0 ==> |kept| == maxItems)
                  && forall c :: c in kept ==> c.confidence >= r.candidate.confidence)
  {
    hide Broken, Verdict, Passing, Refused, ByConfidence, OverTheCap;
    var passing := Passing(w, cs);
    var sorted := ByConfidence(passing);
    var k := SliceEnd(maxItems, |sorted|);
    MembersOfSplit(w, cs);
    ByConfidenceRight(passing);
    OverTheCapIsAll(sorted[k..]);
    forall c | c in sorted ensures c in cs && PassesAll(w, c) {
      assert c in multiset(sorted);
      assert c in passing;
    }
    forall r | r in Refused(w, cs) ensures r.rule != OverCap {
      assert BreaksFirst(w, r.rule, r.candidate);
    }
    forall r | r in OverTheCap(sorted[k..]) ensures r.rule == OverCap && r.candidate in sorted[k..] {
    }
    forall i, j | 0 <= i < k && k <= j < |sorted| ensures sorted[i].confidence >= sorted[j].confidence {
    }
  }

  /** The kept list is the first of the one stable order of exactly the passing candidates. */
  lemma {:induction false} KeptIsStableTop(w: Wall, cs: seq<Candidate>, maxItems: int, order: seq<Candidate>)
    requires Descending(order) && forall v :: AtLevel(order, v) == AtLevel(Passing(w, cs), v)
    ensures Kept(w, cs, maxItems) == order[..SliceEnd(maxItems, |order|)]
  {
    ByConfidenceRight(Passing(w, cs));
    OneStableOrder(order, ByConfidence(Passing(w, cs)));
  }

  // ---- how the rules relate

  /** A quote found at its timecode is found in the transcript: rule 3 implies rule 2. */
  lemma LocalImpliesGlobal(w: Wall, c: Candidate)
    requires Sane(w.u) && Valid(w.t) && !Broken(w, QuoteNotAtTimecode, c)
    ensures !Broken(w, QuoteNotInTranscript, c)
  {
    hide Normalize, IsInfix, TextBetween, Spoken;
    var local := TextBetween(w.t, c.startMs - SLACK_MS, c.endMs + SLACK_MS);
    TextBetweenInFull(w.t, c.startMs - SLACK_MS, c.endMs + SLACK_MS);
    NormalizeMonotone(w.u, local, Spoken(w.t.segments));
    InfixTransitive(Normalize(w.u, c.quote), Normalize(w.u, local), Normalize(w.u, Spoken(w.t.segments)));
  }

  /** Widening a candidate's span never loses its quote. */
  lemma WiderStillGrounded(w: Wall, c: Candidate, c': Candidate)
    requires Sane(w.u) && Valid(w.t) && !Broken(w, QuoteNotAtTimecode, c)
    requires c'.quote == c.quote && c'.startMs <= c.startMs && c.endMs <= c'.endMs
    ensures !Broken(w, QuoteNotAtTimecode, c')
  {
    hide Normalize, IsInfix, TextBetween, Spoken;
    var narrow := TextBetween(w.t, c.startMs - SLACK_MS, c.endMs + SLACK_MS);
    var wide := TextBetween(w.t, c'.startMs - SLACK_MS, c'.endMs + SLACK_MS);
    TextBetweenGrows(w.t, c.startMs - SLACK_MS, c.endMs + SLACK_MS, c'.startMs - SLACK_MS, c'.endMs + SLACK_MS);
    NormalizeMonotone(w.u, narrow, wide);
    InfixTransitive(Normalize(w.u, c.quote), Normalize(w.u, narrow), Normalize(w.u, wide));
  }

  // ---- completeness

  /** The candidate quotes, verbatim, something said in segments i..j-1, and cites it from
      the start of the first to the end of the last. */
  ghost predicate Excerpt(t: Transcript, c: Candidate, i: nat, j: nat) {
    && i < j <= |t.segments|
    && IsInfix(c.quote, Spoken(t.segments[i..j]))
    && c.startMs == t.segments[i].startMs && c.endMs == t.segments[j - 1].endMs
  }

  /** A verbatim excerpt of consecutive segments is rejected only for being short or long. */
  lemma ExcerptPasses(w: Wall, c: Candidate, i: nat, j: nat)
    requires Sane(w.u) && Valid(w.t) && Excerpt(w.t, c, i, j)
    ensures PassesAll(w, c) <==> !Broken(w, QuoteTooShort, c) && !Broken(w, SpanTooLong, c)
  {
    hide Normalize, IsInfix, TextBetween, Spoken;
    var segs := w.t.segments;
    var local := TextBetween(w.t, c.startMs - SLACK_MS, c.endMs + SLACK_MS);
    assert SegmentOk(segs[i]) && SegmentOk(segs[j - 1]);
    SliceInText(w.t, i, j, c.startMs - SLACK_MS, c.endMs + SLACK_MS);
    InfixTransitive(c.quote, Spoken(segs[i..j]), local);
    NormalizeMonotone(w.u, c.quote, local);
    LocalImpliesGlobal(w, c);
    assert i < j - 1 ==> segs[i].endMs <= segs[j - 1].startMs;
  }

  /** And so `validate` keeps it, unless the cap is full. */
  lemma ExcerptKept(w: Wall, cs: seq<Candidate>, maxItems: int, c: Candidate, i: nat, j: nat)
    requires Sane(w.u) && Valid(w.t) && Excerpt(w.t, c, i, j) && c in cs
    requires |Normalize(w.u, c.quote)| >= MIN_QUOTE && c.endMs - c.startMs <= w.maxSpanMs
    ensures c in Kept(w, cs, maxItems) || Rejection(c, OverCap) in Rejected(w, cs, maxItems)
    ensures forall r :: r in Rejected(w, cs, maxItems) && r.candidate == c ==> r.rule == OverCap
  {
    hide Normalize, IsInfix, TextBetween, Spoken, Verdict, Passing, Refused, ByConfidence, OverTheCap;
    ExcerptPasses(w, c, i, j);
    MembersOfSplit(w, cs);
    ByConfidenceRight(Passing(w, cs));
    var sorted := ByConfidence(Passing(w, cs));
    var k := SliceEnd(maxItems, |sorted|);
    assert c in multiset(sorted);
    OverTheCapIsAll(sorted[k..]);
    var p :| 0 <= p < |sorted| && sorted[p] == c;
    if p >= k {
      assert OverTheCap(sorted[k..])[p - k] == Rejection(c, OverCap);
    } else {
      assert sorted[..k][p] == c;
    }
    ValidatorSound(w, cs, maxItems);
  }

  // ---- merge

  datatype Flag = Flag(id: string, startMs: int, endMs: int, note: Option<string>)

  datatype Source = Human | Model

  datatype Proposed = Proposed(
    source: Source, startMs: int, endMs: int, quote: string,
    reason: Option<string>, confidence: Option<real>, flagId: Option<string>)

  function FromFlag(t: Transcript, f: Flag): Proposed {
    Proposed(Human, f.startMs, f.endMs, TextBetween(t, f.startMs, f.endMs), f.note, None, Some(f.id))
  }

  function FromCandidate(c: Candidate): Proposed {
    Proposed(Model, c.startMs, c.endMs, c.quote, Some(c.note), Some(c.confidence), None)
  }

  /** What the cap leaves for the model after the human flags. */
  function Room(cap: int, flags: seq<Flag>): int { if cap - |flags| > 0 then cap - |flags| else 0 }

  function Merge(u: Unicode, flags: seq<Flag>, candidates: seq<Candidate>, t: Transcript, cap: int)
    : (r: (seq<Proposed>, seq<Rejection>))
    ensures |r.0| == |flags| + |Kept(Wall(u, t, MAX_SPAN_MS), candidates, Room(cap, flags))|
    ensures forall i :: 0 <= i < |flags| ==> r.0[i] == FromFlag(t, flags[i])
    ensures forall i :: |flags| <= i < |r.0| ==>
      r.0[i] == FromCandidate(Kept(Wall(u, t, MAX_SPAN_MS), candidates, Room(cap, flags))[i - |flags|])
  {
    var w := Wall(u, t, MAX_SPAN_MS);
    var kept := Kept(w, candidates, Room(cap, flags));
    (seq(|flags|, i requires 0 <= i < |flags| => FromFlag(t, flags[i]))
       + seq(|kept|, i requires 0 <= i < |kept| => FromCandidate(kept[i])),
     Rejected(w, candidates, Room(cap, flags)))
  }
}
