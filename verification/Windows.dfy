/**
 Overlapping windows over a transcript (edlo/ai/windows.py), the pieces the model is
 shown one at a time.
 */
module Windows {
  import opened Wrappers
  import opened Text
  import opened Transcripts
  import opened Grounding

  datatype Window = Window(index: nat, startMs: int, endMs: int, segments: seq<Segment>)

  const WINDOW_MS: int := 300_000
  const OVERLAP_MS: int := 30_000

  /** The lengths a call uses; the source's loop ends only if windows advance. */
  datatype Cut = Cut(t: Transcript, windowMs: int, overlapMs: int)

  predicate Advances(c: Cut) { c.overlapMs < c.windowMs }

  // ---- spans: where windows would be if every one held speech

  function Step(c: Cut): int { c.windowMs - c.overlapMs }

  function SpanStart(c: Cut, k: nat): int { k * Step(c) }

  function SpanEnd(c: Cut, k: nat): int {
    if SpanStart(c, k) + c.windowMs < c.t.durationMs then SpanStart(c, k) + c.windowMs else c.t.durationMs
  }

  function SpanSegments(c: Cut, k: nat): seq<Segment> {
    Selected(c.t.segments, SpanStart(c, k), SpanEnd(c, k))
  }

  /** The span begins within the audio, and those before it did not reach the end. */
  predicate IsSpan(c: Cut, k: nat) {
    SpanStart(c, k) < c.t.durationMs && (k == 0 || SpanEnd(c, k - 1) < c.t.durationMs)
  }

  lemma FirstSpan(c: Cut)
    ensures SpanStart(c, 0) == 0
  {
  }

  lemma NextSpan(c: Cut, k: nat)
    ensures SpanStart(c, k + 1) == SpanStart(c, k) + Step(c)
  {
  }

  lemma {:induction false} SpansAdvance(c: Cut, k: nat, l: nat)
    requires Advances(c) && k < l
    ensures SpanStart(c, k) < SpanStart(c, l)
    decreases l
  {
    NextSpan(c, l - 1);
    if k < l - 1 {
      SpansAdvance(c, k, l - 1);
    }
  }

  /** Span k as a window, if it holds speech. */
  function Here(c: Cut, k: nat, index: nat): seq<Window> {
    var segs := SpanSegments(c, k);
    if segs != [] then [Window(index, SpanStart(c, k), SpanEnd(c, k), segs)] else []
  }

  /** The windows from span k on: the spans that hold speech, numbered from `index`. */
  function WindowsFrom(c: Cut, k: nat, index: nat): seq<Window>
    requires Advances(c)
    decreases c.t.durationMs - SpanStart(c, k)
  {
    if SpanStart(c, k) >= c.t.durationMs then []
    else
      var here := Here(c, k, index);
      if SpanEnd(c, k) >= c.t.durationMs then here
      else
        NextSpan(c, k);
        here + WindowsFrom(c, k + 1, index + |here|)
  }

  method MakeWindows(t: Transcript, windowMs: int := WINDOW_MS, overlapMs: int := OVERLAP_MS) returns (windows: seq<Window>)
    requires overlapMs < windowMs
    ensures windows == WindowsFrom(Cut(t, windowMs, overlapMs), 0, 0)
  {
    hide SpanStart, Selected;
    ghost var c := Cut(t, windowMs, overlapMs);
    ghost var k: nat := 0;
    FirstSpan(c);
    windows := [];
    var start := 0;
    while start < t.durationMs
      invariant start == SpanStart(c, k)
      invariant windows + WindowsFrom(c, k, |windows|) == WindowsFrom(c, 0, 0)
      decreases t.durationMs - start
    {
      var end := if start + windowMs < t.durationMs then start + windowMs else t.durationMs;
      var segs := Selected(t.segments, start, end);
      ghost var before := windows;
      ghost var here := Here(c, k, |before|);
      if segs != [] {
        windows := windows + [Window(|windows|, start, end, segs)];
      }
      assert windows == before + here;
      NextSpan(c, k);
      if end >= t.durationMs {
        return;
      }
      Assoc(before, here, WindowsFrom(c, k + 1, |windows|));
      start := end - overlapMs;
      k := k + 1;
    }
  }

  // ---- every window is a span with speech, and every such span is a window

  ghost predicate FromSpan(c: Cut, w: Window, k: nat) {
    && IsSpan(c, k)
    && w.startMs == SpanStart(c, k) && w.endMs == SpanEnd(c, k)
    && w.segments == SpanSegments(c, k) && w.segments != []
  }

  lemma {:induction false} EveryWindowIsASpan(c: Cut, k: nat, index: nat, i: nat) returns (l: nat)
    requires Advances(c) && i < |WindowsFrom(c, k, index)|
    requires k == 0 || SpanEnd(c, k - 1) < c.t.durationMs
    ensures k <= l && FromSpan(c, WindowsFrom(c, k, index)[i], l)
    ensures WindowsFrom(c, k, index)[i].index == index + i
    decreases c.t.durationMs - SpanStart(c, k)
  {
    var first := if SpanSegments(c, k) != [] then 1 else 0;
    if i < first {
      l := k;
    } else {
      NextSpan(c, k);
      l := EveryWindowIsASpan(c, k + 1, index + first, i - first);
    }
  }

  lemma {:induction false} EverySpeakingSpanIsAWindow(c: Cut, k: nat, index: nat, l: nat) returns (i: nat)
    requires Advances(c) && k <= l && IsSpan(c, l) && SpanSegments(c, l) != []
    ensures i < |WindowsFrom(c, k, index)| && FromSpan(c, WindowsFrom(c, k, index)[i], l)
    decreases c.t.durationMs - SpanStart(c, k)
  {
    if k == l {
      i := 0;
    } else {
      SpansAdvance(c, k, l);
      NextSpan(c, k);
      ReachesEarlier(c, k, l);
      var first := if SpanSegments(c, k) != [] then 1 else 0;
      i := EverySpeakingSpanIsAWindow(c, k + 1, index + first, l);
      i := i + first;
    }
  }

  /** Spans before a span do not reach the end. */
  lemma {:induction false} ReachesEarlier(c: Cut, k: nat, l: nat)
    requires Advances(c) && k < l && IsSpan(c, l)
    ensures SpanEnd(c, k) < c.t.durationMs
    decreases l - k
  {
    if k < l - 1 {
      SpansAdvance(c, k, l - 1);
    }
  }

  /** A window is span k's, or one of the windows from span k + 1 on. */
  lemma WindowsUnfold(c: Cut, k: nat, index: nat, i: nat)
    requires Advances(c) && i < |WindowsFrom(c, k, index)|
    ensures SpanStart(c, k) < SpanStart(c, k + 1)
    ensures SpanStart(c, k) < c.t.durationMs
    ensures var first := |Here(c, k, index)|;
            if i < first then i == 0 && WindowsFrom(c, k, index)[i].startMs == SpanStart(c, k)
            else
              && SpanEnd(c, k) < c.t.durationMs && i - first < |WindowsFrom(c, k + 1, index + first)|
              && WindowsFrom(c, k, index)[i] == WindowsFrom(c, k + 1, index + first)[i - first]
  {
    hide SpanStart, Selected;
    NextSpan(c, k);
  }

  lemma {:induction false} WindowsAdvance(c: Cut, k: nat, index: nat, i: nat, j: nat)
    requires Advances(c) && i < j < |WindowsFrom(c, k, index)|
    ensures WindowsFrom(c, k, index)[i].startMs < WindowsFrom(c, k, index)[j].startMs
    decreases c.t.durationMs - SpanStart(c, k)
  {
    hide SpanStart, SpanEnd, Here, WindowsFrom;
    var first := |Here(c, k, index)|;
    WindowsUnfold(c, k, index, i);
    WindowsUnfold(c, k, index, j);
    if i < first {
      var l := EveryWindowIsASpan(c, k + 1, index + first, j - first);
      SpansAdvance(c, k, l);
    } else {
      WindowsAdvance(c, k + 1, index + first, i - first, j - first);
    }
  }

  /** Where the k-th span lies, if the audio goes on that far: a window long, or to the end of
      the audio, and none after the first that gets there. */
  predicate Placed(t: Transcript, windowMs: int, overlapMs: int, w: Window, k: nat) {
    && w.startMs == k * (windowMs - overlapMs) < t.durationMs
    && w.endMs == (if w.startMs + windowMs < t.durationMs then w.startMs + windowMs else t.durationMs)
    && (k > 0 ==> (k - 1) * (windowMs - overlapMs) + windowMs < t.durationMs)
  }

  /** The windows are numbered in order and start ever later, at multiples of the step;
      each is a window long unless it ends with the audio, and holds a contiguous slice of
      the transcript, never empty: exactly what is spoken within it. */
  lemma WindowsInOrder(t: Transcript, windowMs: int, overlapMs: int)
    requires Valid(t) && overlapMs < windowMs
    ensures var c := Cut(t, windowMs, overlapMs);
            var ws := WindowsFrom(c, 0, 0);
            && (forall i :: 0 <= i < |ws| ==> ws[i].index == i && exists k :: FromSpan(c, ws[i], k))
            && (forall i :: 0 <= i < |ws| ==> ws[i].segments != [] && exists k :: Placed(t, windowMs, overlapMs, ws[i], k))
            && (forall i, j :: 0 <= i < j < |ws| ==> ws[i].startMs < ws[j].startMs)
            && (forall i :: 0 <= i < |ws| ==>
                  ws[i].segments == Slice(t.segments, Ended(t.segments, ws[i].startMs), Begun(t.segments, ws[i].endMs)))
  {
    var c := Cut(t, windowMs, overlapMs);
    var ws := WindowsFrom(c, 0, 0);
    forall i | 0 <= i < |ws|
      ensures ws[i].index == i && (exists k :: FromSpan(c, ws[i], k))
      ensures ws[i].segments != [] && exists k :: Placed(t, windowMs, overlapMs, ws[i], k)
      ensures ws[i].segments == Slice(t.segments, Ended(t.segments, ws[i].startMs), Begun(t.segments, ws[i].endMs))
    {
      var k := EveryWindowIsASpan(c, 0, 0, i);
      SelectedIsSlice(t.segments, ws[i].startMs, ws[i].endMs);
      SpanIsPlaced(c, ws[i], k);
    }
    forall i, j | 0 <= i < j < |ws| ensures ws[i].startMs < ws[j].startMs {
      WindowsAdvance(c, 0, 0, i, j);
    }
  }

  lemma SpanIsPlaced(c: Cut, w: Window, k: nat)
    requires c.overlapMs < c.windowMs && FromSpan(c, w, k)
    ensures Placed(c.t, c.windowMs, c.overlapMs, w, k)
  {
  }

  // ---- coverage

  /** The first span, from k on, that reaches `end`. */
  lemma {:induction false} SpanAround(c: Cut, k: nat, start: int, end: int) returns (l: nat)
    requires Advances(c) && 0 <= c.overlapMs && IsSpan(c, k)
    requires SpanStart(c, k) <= start < end <= c.t.durationMs && end - start <= c.overlapMs + 1
    ensures IsSpan(c, l) && SpanStart(c, l) <= start && end <= SpanEnd(c, l)
    decreases c.t.durationMs - SpanStart(c, k)
  {
    if end <= SpanEnd(c, k) {
      l := k;
    } else {
      NextSpan(c, k);
      l := SpanAround(c, k + 1, start, end);
    }
  }

  lemma {:induction false} SelectedHas(segs: seq<Segment>, startMs: int, endMs: int)
    ensures forall s :: s in Selected(segs, startMs, endMs) <==> s in segs && Touches(s, startMs, endMs)
  {
    if segs != [] {
      SelectedHas(segs[1..], startMs, endMs);
      assert segs == [segs[0]] + segs[1..];
    }
  }

  /** Any moment no longer than the overlap (or a millisecond longer) in which something is
      said lies wholly inside one of the windows, with everything said in it. */
  lemma MomentsAreWhole(t: Transcript, windowMs: int, overlapMs: int, start: int, end: int, s: Segment) returns (i: nat)
    requires Valid(t) && 0 <= overlapMs < windowMs
    requires 0 <= start < end <= t.durationMs && end - start <= overlapMs + 1
    requires s in t.segments && Touches(s, start, end)
    ensures var ws := WindowsFrom(Cut(t, windowMs, overlapMs), 0, 0);
            && i < |ws| && ws[i].startMs <= start && end <= ws[i].endMs
            && forall x :: x in t.segments && Touches(x, start, end) ==> x in ws[i].segments
  {
    var c := Cut(t, windowMs, overlapMs);
    var k := SpanAround(c, 0, start, end);
    SelectedHas(t.segments, SpanStart(c, k), SpanEnd(c, k));
    i := EverySpeakingSpanIsAWindow(c, 0, 0, k);
  }

  ghost predicate Whole(c: Cut, start: int, length: int) {
    exists k :: IsSpan(c, k) && SpanStart(c, k) <= start && start + length <= SpanEnd(c, k)
  }

  /** And that is the exact bound: in audio with room for it, moments of a given length are
      all seen whole if and only if the length is at most a millisecond over the overlap.
      With thirty seconds of overlap, cold opens of up to a minute, which validation
      accepts, can be cut by every window. */
  lemma WholeIffShort(c: Cut, length: int)
    requires c.t.durationMs > 0 && 0 <= c.overlapMs < c.windowMs
    requires 1 <= length && Step(c) - 1 + length <= c.t.durationMs
    ensures (forall start :: 0 <= start && start + length <= c.t.durationMs ==> Whole(c, start, length))
            <==> length <= c.overlapMs + 1
  {
    if length <= c.overlapMs + 1 {
      forall start | 0 <= start && start + length <= c.t.durationMs ensures Whole(c, start, length) {
        var k := SpanAround(c, 0, start, start + length);
      }
    } else {
      var start := Step(c) - 1;
      forall k | IsSpan(c, k) && SpanStart(c, k) <= start ensures start + length > SpanEnd(c, k) {
        NextSpan(c, 0);
        if k > 1 {
          SpansAdvance(c, 1, k);
        }
      }
      assert !Whole(c, start, length);
    }
  }

  lemma {:induction false} SpanTouched(c: Cut, k: nat, s: Segment) returns (l: nat)
    requires Advances(c) && 0 <= c.overlapMs && IsSpan(c, k)
    requires SpanStart(c, k) <= s.startMs < s.endMs <= c.t.durationMs
    ensures k <= l && IsSpan(c, l) && Touches(s, SpanStart(c, l), SpanEnd(c, l))
    decreases c.t.durationMs - SpanStart(c, k)
  {
    if s.startMs < SpanEnd(c, k) {
      l := k;
    } else {
      NextSpan(c, k);
      l := SpanTouched(c, k + 1, s);
    }
  }

  /** Nothing said is left out: every segment is in some window. */
  lemma EverySegmentIsShown(t: Transcript, windowMs: int, overlapMs: int, s: Segment) returns (i: nat)
    requires Valid(t) && 0 <= overlapMs < windowMs && s in t.segments
    ensures var ws := WindowsFrom(Cut(t, windowMs, overlapMs), 0, 0);
            i < |ws| && s in ws[i].segments
  {
    var c := Cut(t, windowMs, overlapMs);
    var k := SpanTouched(c, 0, s);
    SelectedHas(t.segments, SpanStart(c, k), SpanEnd(c, k));
    i := EverySpeakingSpanIsAWindow(c, 0, 0, k);
  }

  // ---- no overlap

  lemma {:induction false} SpansMeet(c: Cut, k: nat, l: nat)
    requires Advances(c) && c.overlapMs == 0 && k < l && IsSpan(c, l)
    ensures SpanEnd(c, k) == SpanStart(c, k + 1) <= SpanStart(c, l)
  {
    ReachesEarlier(c, k, l);
    NextSpan(c, k);
    if k + 1 < l {
      SpansAdvance(c, k + 1, l);
    }
  }

  /** A segment in two windows crosses the start of the later one. */
  lemma ShownTwiceCrosses(t: Transcript, windowMs: int, s: Segment, i: nat, j: nat)
    requires Valid(t) && 0 < windowMs && s in t.segments
    requires var ws := WindowsFrom(Cut(t, windowMs, 0), 0, 0);
             i < j < |ws| && s in ws[i].segments && s in ws[j].segments
    ensures var ws := WindowsFrom(Cut(t, windowMs, 0), 0, 0);
            s.startMs < ws[j].startMs < s.endMs
  {
    hide SpanStart, WindowsFrom, Selected;
    var c := Cut(t, windowMs, 0);
    var k := EveryWindowIsASpan(c, 0, 0, i);
    var l := EveryWindowIsASpan(c, 0, 0, j);
    WindowsAdvance(c, 0, 0, i, j);
    if l <= k {
      if l < k {
        SpansAdvance(c, l, k);
      }
    }
    SpansMeet(c, k, l);
    SelectedHas(t.segments, SpanStart(c, k), SpanEnd(c, k));
    SelectedHas(t.segments, SpanStart(c, l), SpanEnd(c, l));
  }

  /** A segment that crosses the start of a window is in it and in the one before. */
  lemma CrossingIsShownTwice(t: Transcript, windowMs: int, s: Segment, j: nat) returns (i: nat)
    requires Valid(t) && 0 < windowMs && s in t.segments
    requires var ws := WindowsFrom(Cut(t, windowMs, 0), 0, 0);
             j < |ws| && s.startMs < ws[j].startMs < s.endMs
    ensures var ws := WindowsFrom(Cut(t, windowMs, 0), 0, 0);
            i < j && s in ws[i].segments && s in ws[j].segments
  {
    hide WindowsFrom, Selected;
    var c := Cut(t, windowMs, 0);
    var l := EveryWindowIsASpan(c, 0, 0, j);
    SelectedHas(t.segments, SpanStart(c, l), SpanEnd(c, l));
    SpansMeet(c, l - 1, l);
    SelectedHas(t.segments, SpanStart(c, l - 1), SpanEnd(c, l - 1));
    ReachesEarlier(c, l - 1, l);
    i := EverySpeakingSpanIsAWindow(c, 0, 0, l - 1);
    if j <= i {
      if j < i {
        WindowsAdvance(c, 0, 0, j, i);
      }
    }
  }

  /** Without overlap, as in the publishing pack, a segment is shown more than once if and only
      if it crosses the start of a window. */
  lemma ShownOnceUnlessCrossing(t: Transcript, windowMs: int, s: Segment)
    requires Valid(t) && 0 < windowMs && s in t.segments
    ensures var ws := WindowsFrom(Cut(t, windowMs, 0), 0, 0);
            (exists i, j :: 0 <= i < j < |ws| && s in ws[i].segments && s in ws[j].segments)
            <==> exists j :: 0 <= j < |ws| && s.startMs < ws[j].startMs < s.endMs
  {
    hide WindowsFrom;
    var ws := WindowsFrom(Cut(t, windowMs, 0), 0, 0);
    if i, j :| 0 <= i < j < |ws| && s in ws[i].segments && s in ws[j].segments {
      ShownTwiceCrosses(t, windowMs, s, i, j);
    }
    if j :| 0 <= j < |ws| && s.startMs < ws[j].startMs < s.endMs {
      var i := CrossingIsShownTwice(t, windowMs, s, j);
      assert i < j && s in ws[i].segments && s in ws[j].segments;
    }
  }

  lemma WindowIsSlice(t: Transcript, windowMs: int, overlapMs: int, n: nat) returns (lo: nat)
    requires Valid(t) && overlapMs < windowMs && n < |WindowsFrom(Cut(t, windowMs, overlapMs), 0, 0)|
    ensures var segs := WindowsFrom(Cut(t, windowMs, overlapMs), 0, 0)[n].segments;
            lo + |segs| <= |t.segments| && segs == t.segments[lo..lo + |segs|]
  {
    hide WindowsFrom, Selected, Ended, Begun;
    WindowsInOrder(t, windowMs, overlapMs);
    var w := WindowsFrom(Cut(t, windowMs, overlapMs), 0, 0)[n];
    var i, j := Ended(t.segments, w.startMs), Begun(t.segments, w.endMs);
    assert w.segments == Slice(t.segments, i, j);
    lo := i;
  }

  /** A quote taken from what the model is shown of one window, segments i..j-1 of it, is
      an excerpt of the transcript, so the grounding wall lets it through. */
  lemma WindowQuotesPass(wall: Wall, windowMs: int, overlapMs: int, n: nat, i: nat, j: nat, c: Candidate)
    requires Sane(wall.u) && Valid(wall.t) && overlapMs < windowMs
    requires var ws := WindowsFrom(Cut(wall.t, windowMs, overlapMs), 0, 0);
             && n < |ws| && i < j <= |ws[n].segments|
             && IsInfix(c.quote, Spoken(ws[n].segments[i..j]))
             && c.startMs == ws[n].segments[i].startMs && c.endMs == ws[n].segments[j - 1].endMs
    requires |Normalize(wall.u, c.quote)| >= MIN_QUOTE && c.endMs - c.startMs <= wall.maxSpanMs
    ensures PassesAll(wall, c)
  {
    hide Normalize, IsInfix, WindowsFrom, Spoken, Selected, Ended, Begun, TextBetween, Ordered;
    var w := WindowsFrom(Cut(wall.t, windowMs, overlapMs), 0, 0)[n];
    var lo := WindowIsSlice(wall.t, windowMs, overlapMs, n);
    assert w.segments[i..j] == wall.t.segments[lo + i..lo + j];
    ExcerptPasses(wall, c, lo + i, lo + j);
  }
}
