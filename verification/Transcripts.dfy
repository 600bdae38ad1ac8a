/**
 The transcript artifact (edlo/transcription/schema.py): what its validators check,
 and what a selection by time is.
 */
module Transcripts {
  import opened Wrappers
  import opened Text

  datatype Segment = Segment(index: int, startMs: int, endMs: int, text: string)

  datatype Transcript = Transcript(durationMs: int, segments: seq<Segment>)

  datatype Defect =
    | BadSegment(at: nat)
    | BadDuration
    | OutOfOrder(at: nat)
    | Overlap(at: nat)
    | BeyondEnd

  // ---- validation, as the validators run it

  predicate SegmentOk(s: Segment) {
    s.index >= 0 && s.startMs >= 0 && s.endMs > 0 && s.text != "" && s.endMs > s.startMs
  }

  function FirstBadSegment(segs: seq<Segment>, i: nat): Option<Defect>
    requires i <= |segs|
    decreases |segs| - i
  {
    if i == |segs| then None else if !SegmentOk(segs[i]) then Some(BadSegment(i)) else FirstBadSegment(segs, i + 1)
  }

  /** The loop over adjacent pairs: order is checked before overlap. */
  function FirstBadPair(segs: seq<Segment>, i: nat): Option<Defect>
    requires i <= |segs|
    decreases |segs| - i
  {
    if i + 1 >= |segs| then None
    else if segs[i + 1].startMs < segs[i].startMs then Some(OutOfOrder(i))
    else if segs[i + 1].startMs < segs[i].endMs then Some(Overlap(i))
    else FirstBadPair(segs, i + 1)
  }

  function Check(t: Transcript): Option<Defect> {
    var bad := FirstBadSegment(t.segments, 0);
    if bad.Some? then bad
    else if t.durationMs <= 0 then Some(BadDuration)
    else
      var pair := FirstBadPair(t.segments, 0);
      if pair.Some? then pair
      else if t.segments != [] && t.segments[|t.segments| - 1].endMs > t.durationMs then Some(BeyondEnd)
      else None
  }

  /** Speech in order, no two segments overlapping, all within the audio. */
  ghost predicate Ordered(segs: seq<Segment>) {
    && (forall i :: 0 <= i < |segs| ==> SegmentOk(segs[i]))
    && (forall i, j :: 0 <= i < j < |segs| ==> segs[i].endMs <= segs[j].startMs)
  }

  ghost predicate Valid(t: Transcript) {
    && t.durationMs > 0 && Ordered(t.segments)
    && forall i :: 0 <= i < |t.segments| ==> t.segments[i].endMs <= t.durationMs
  }

  lemma {:induction false} FirstBadSegmentFinds(segs: seq<Segment>, i: nat)
    requires i <= |segs|
    ensures FirstBadSegment(segs, i).None? <==> forall k :: i <= k < |segs| ==> SegmentOk(segs[k])
    decreases |segs| - i
  {
    if i < |segs| && SegmentOk(segs[i]) {
      FirstBadSegmentFinds(segs, i + 1);
    }
  }

  lemma {:induction false} FirstBadPairFinds(segs: seq<Segment>, i: nat)
    requires i <= |segs| && forall k :: i <= k < |segs| ==> SegmentOk(segs[k])
    ensures FirstBadPair(segs, i).None? <==> forall k, l :: i <= k < l < |segs| ==> segs[k].endMs <= segs[l].startMs
    decreases |segs| - i
  {
    if i + 1 < |segs| {
      FirstBadPairFinds(segs, i + 1);
      assert segs[i + 1].startMs < segs[i].startMs ==> segs[i + 1].startMs < segs[i].endMs;
    }
  }

  /** Checking neighbours is enough: an artifact is accepted exactly when all its segments
      are well-formed, follow one another without overlap, and lie within the audio. */
  lemma AcceptedIffValid(t: Transcript)
    ensures Check(t).None? <==> Valid(t)
    ensures Valid(t) <==>
              && t.durationMs > 0
              && (forall i :: 0 <= i < |t.segments| ==>
                    t.segments[i].index >= 0 && t.segments[i].text != ""
                    && 0 <= t.segments[i].startMs < t.segments[i].endMs <= t.durationMs)
              && (forall i, j :: 0 <= i < j < |t.segments| ==> t.segments[i].endMs <= t.segments[j].startMs)
  {
    FirstBadSegmentFinds(t.segments, 0);
    if FirstBadSegment(t.segments, 0).None? {
      FirstBadPairFinds(t.segments, 0);
      if FirstBadPair(t.segments, 0).None? && t.segments != [] {
        var last := t.segments[|t.segments| - 1];
        assert forall i :: 0 <= i < |t.segments| - 1 ==> t.segments[i].endMs <= last.startMs < last.endMs;
      }
    }
  }

  lemma {:induction false} WhichSegmentIsBad(segs: seq<Segment>, i: nat)
    requires i <= |segs|
    ensures var bad := FirstBadSegment(segs, i);
            bad.Some? ==>
              && bad.value.BadSegment? && i <= bad.value.at < |segs| && !SegmentOk(segs[bad.value.at])
              && forall k :: i <= k < bad.value.at ==> SegmentOk(segs[k])
    decreases |segs| - i
  {
    if i < |segs| && SegmentOk(segs[i]) {
      WhichSegmentIsBad(segs, i + 1);
    }
  }

  lemma {:induction false} WhichPairIsBad(segs: seq<Segment>, i: nat)
    requires i <= |segs|
    ensures var bad := FirstBadPair(segs, i);
            bad.Some? ==>
              && (bad.value.OutOfOrder? || bad.value.Overlap?) && i <= bad.value.at < |segs| - 1
              && (bad.value.OutOfOrder? <==> segs[bad.value.at + 1].startMs < segs[bad.value.at].startMs)
              && segs[bad.value.at + 1].startMs < Later(segs[bad.value.at].startMs, segs[bad.value.at].endMs)
              && forall k :: i <= k < bad.value.at ==> segs[k + 1].startMs >= segs[k].startMs && segs[k + 1].startMs >= segs[k].endMs
    decreases |segs| - i
  {
    if i + 1 < |segs| && segs[i + 1].startMs >= segs[i].startMs && segs[i + 1].startMs >= segs[i].endMs {
      WhichPairIsBad(segs, i + 1);
    }
  }

  function Later(a: int, b: int): int { if a > b then a else b }

  /** The defect that is reported: the first bad segment before anything else, then the first
      bad pair of neighbours, out of order or else overlapping, and only then the end. */
  lemma ReportedDefect(t: Transcript)
    ensures match Check(t)
            case None => true
            case Some(BadSegment(k)) =>
              k < |t.segments| && !SegmentOk(t.segments[k]) && forall i :: 0 <= i < k ==> SegmentOk(t.segments[i])
            case Some(BadDuration) => t.durationMs <= 0 && forall i :: 0 <= i < |t.segments| ==> SegmentOk(t.segments[i])
            case Some(OutOfOrder(k)) =>
              && k + 1 < |t.segments| && t.segments[k + 1].startMs < t.segments[k].startMs
              && forall i :: 0 <= i < k ==> t.segments[i + 1].startMs >= t.segments[i].endMs
            case Some(Overlap(k)) =>
              && k + 1 < |t.segments| && t.segments[k].startMs <= t.segments[k + 1].startMs < t.segments[k].endMs
              && forall i :: 0 <= i < k ==> t.segments[i + 1].startMs >= t.segments[i].endMs
            case Some(BeyondEnd) =>
              && Ordered(t.segments) && t.segments != [] && t.segments[|t.segments| - 1].endMs > t.durationMs
  {
    FirstBadSegmentFinds(t.segments, 0);
    WhichSegmentIsBad(t.segments, 0);
    WhichPairIsBad(t.segments, 0);
    if FirstBadSegment(t.segments, 0).None? {
      FirstBadPairFinds(t.segments, 0);
    }
  }

  // ---- text between two times

  predicate Touches(s: Segment, startMs: int, endMs: int) { s.endMs > startMs && s.startMs < endMs }

  function Selected(segs: seq<Segment>, startMs: int, endMs: int): seq<Segment> {
    if segs == [] then []
    else (if Touches(segs[0], startMs, endMs) then [segs[0]] else []) + Selected(segs[1..], startMs, endMs)
  }

  function Texts(segs: seq<Segment>): seq<string> {
    if segs == [] then [] else [segs[0].text] + Texts(segs[1..])
  }

  function Spoken(segs: seq<Segment>): string { Joined(Texts(segs)) }

  function TextBetween(t: Transcript, startMs: int, endMs: int): string {
    Spoken(Selected(t.segments, startMs, endMs))
  }

  // ---- a selection is a slice

  /** How many segments have ended by `ms`, and how many have begun before it. */
  function Ended(segs: seq<Segment>, ms: int): (n: nat)
    ensures n <= |segs|
  {
    if segs == [] || segs[0].endMs > ms then 0 else 1 + Ended(segs[1..], ms)
  }

  function Begun(segs: seq<Segment>, ms: int): (n: nat)
    ensures n <= |segs|
  {
    if segs == [] || segs[0].startMs >= ms then 0 else 1 + Begun(segs[1..], ms)
  }

  function Slice(segs: seq<Segment>, i: nat, j: nat): seq<Segment> {
    if i <= j <= |segs| then segs[i..j] else []
  }

  lemma {:induction false} EndedAt(segs: seq<Segment>, ms: int, k: nat)
    requires Ordered(segs) && k < |segs|
    ensures k < Ended(segs, ms) <==> segs[k].endMs <= ms
    decreases |segs|
  {
    if segs[0].endMs <= ms && k > 0 {
      EndedAt(segs[1..], ms, k - 1);
    }
  }

  lemma {:induction false} BegunAt(segs: seq<Segment>, ms: int, k: nat)
    requires Ordered(segs) && k < |segs|
    ensures k < Begun(segs, ms) <==> segs[k].startMs < ms
    decreases |segs|
  {
    if segs[0].startMs < ms && k > 0 {
      BegunAt(segs[1..], ms, k - 1);
    }
  }

  lemma {:induction false} NothingSelected(segs: seq<Segment>, startMs: int, endMs: int)
    requires forall k :: 0 <= k < |segs| ==> !Touches(segs[k], startMs, endMs)
    ensures Selected(segs, startMs, endMs) == []
  {
    if segs != [] {
      assert forall k :: 0 <= k < |segs[1..]| ==> segs[1..][k] == segs[k + 1];
      NothingSelected(segs[1..], startMs, endMs);
    }
  }

  /** A first segment that ended before the interval falls out of both. */
  lemma FirstEnded(segs: seq<Segment>, startMs: int, endMs: int)
    requires Ordered(segs) && segs != [] && segs[0].endMs <= startMs && segs[0].startMs < endMs
    ensures Selected(segs, startMs, endMs) == Selected(segs[1..], startMs, endMs)
    ensures Slice(segs, Ended(segs, startMs), Begun(segs, endMs))
            == Slice(segs[1..], Ended(segs[1..], startMs), Begun(segs[1..], endMs))
  {
    hide Ordered;
    var i, j := Ended(segs[1..], startMs), Begun(segs[1..], endMs);
    assert i <= j ==> segs[1..][i..j] == segs[i + 1..j + 1];
  }

  /** A first segment that touches the interval starts both. */
  lemma FirstTouches(segs: seq<Segment>, startMs: int, endMs: int)
    requires Ordered(segs) && segs != [] && segs[0].endMs > startMs && segs[0].startMs < endMs
    ensures Selected(segs, startMs, endMs) == [segs[0]] + Selected(segs[1..], startMs, endMs)
    ensures Ended(segs, startMs) == Ended(segs[1..], startMs) == 0
    ensures Slice(segs, 0, Begun(segs, endMs)) == [segs[0]] + Slice(segs[1..], 0, Begun(segs[1..], endMs))
  {
    var j := Begun(segs[1..], endMs);
    assert segs[0..j + 1] == [segs[0]] + segs[1..][0..j];
    if |segs| > 1 {
      assert segs[1..][0] == segs[1];
    }
  }

  /** In an ordered transcript a selection is contiguous: from the first segment not yet
      ended to the last one begun. */
  lemma {:induction false} SelectedIsSlice(segs: seq<Segment>, startMs: int, endMs: int)
    requires Ordered(segs)
    ensures Selected(segs, startMs, endMs) == Slice(segs, Ended(segs, startMs), Begun(segs, endMs))
  {
    if segs != [] {
      assert Ordered(segs[1..]);
      if segs[0].startMs >= endMs {
        assert forall k :: 0 <= k < |segs| ==> segs[k].startMs >= endMs;
        NothingSelected(segs, startMs, endMs);
      } else {
        hide Ordered, Selected, Ended, Begun, Slice;
        SelectedIsSlice(segs[1..], startMs, endMs);
        if segs[0].endMs <= startMs {
          FirstEnded(segs, startMs, endMs);
        } else {
          FirstTouches(segs, startMs, endMs);
        }
      }
    }
  }

  // ---- infixes of speech

  lemma {:induction false} SpokenConcat(a: seq<Segment>, b: seq<Segment>)
    ensures Spoken(a + b) == if a == [] then Spoken(b) else if b == [] then Spoken(a) else Spoken(a) + " " + Spoken(b)
  {
    if a == [] {
      assert a + b == b;
    } else if b == [] {
      assert a + b == a;
    } else {
      assert (a + b)[1..] == a[1..] + b;
      SpokenConcat(a[1..], b);
      assert Texts(a + b) == [a[0].text] + Texts(a[1..] + b);
      TextsLength(a[1..] + b);
      TextsLength(a[1..]);
      if |a| == 1 {
        assert a[1..] + b == b;
      }
    }
  }

  /** Every segment's text stands in what is spoken, verbatim and in its place, a space from
      what comes before and after. */
  lemma SpokenAt(segs: seq<Segment>, k: nat)
    requires k < |segs|
    ensures Spoken(segs) == (if k == 0 then "" else Spoken(segs[..k]) + " ") + segs[k].text
                            + (if k + 1 == |segs| then "" else " " + Spoken(segs[k + 1..]))
  {
    var one := [segs[k]];
    assert Texts(one) == [segs[k].text] + Texts(one[1..]) && one[1..] == [];
    assert Spoken(one) == segs[k].text;
    assert segs == segs[..k] + (one + segs[k + 1..]);
    SpokenConcat(one, segs[k + 1..]);
    SpokenConcat(segs[..k], one + segs[k + 1..]);
  }

  lemma {:induction false} TextsLength(segs: seq<Segment>)
    ensures |Texts(segs)| == |segs|
  {
    if segs != [] {
      TextsLength(segs[1..]);
    }
  }

  lemma SpokenAround(before: seq<Segment>, x: seq<Segment>, after: seq<Segment>)
    requires x != []
    ensures IsInfix(Spoken(x), Spoken(before + x + after))
  {
    hide Spoken, IsInfix;
    SpokenConcat(before, x);
    SpokenConcat(before + x, after);
    var a := if before == [] then "" else Spoken(before) + " ";
    var b := if after == [] then "" else " " + Spoken(after);
    assert Spoken(before + x) == a + Spoken(x);
    assert Spoken(before + x + after) == a + Spoken(x) + b;
    InfixOf(a, Spoken(x), b);
  }

  /** What is said in consecutive segments is said, verbatim, in any longer stretch. */
  lemma SpokenSlice(segs: seq<Segment>, i: nat, j: nat, k: nat, l: nat)
    requires k <= i <= j <= l <= |segs|
    ensures IsInfix(Spoken(segs[i..j]), Spoken(segs[k..l]))
  {
    if i == j {
      assert Text.At(Spoken(segs[i..j]), Spoken(segs[k..l]), 0);
    } else {
      hide Spoken, IsInfix;
      assert segs[k..l] == segs[k..i] + segs[i..j] + segs[j..l];
      SpokenAround(segs[k..i], segs[i..j], segs[j..l]);
    }
  }

  /** The text of an interval is an infix of the text of any wider interval. */
  lemma TextBetweenGrows(t: Transcript, startMs: int, endMs: int, startMs': int, endMs': int)
    requires Valid(t) && startMs' <= startMs && endMs <= endMs'
    ensures IsInfix(TextBetween(t, startMs, endMs), TextBetween(t, startMs', endMs'))
  {
    var segs := t.segments;
    SelectedIsSlice(segs, startMs, endMs);
    SelectedIsSlice(segs, startMs', endMs');
    var i, j := Ended(segs, startMs), Begun(segs, endMs);
    var k, l := Ended(segs, startMs'), Begun(segs, endMs');
    if i < j {
      EndedBounds(segs, startMs, startMs');
      BegunBounds(segs, endMs, endMs');
      SpokenSlice(segs, i, j, k, l);
    } else {
      assert Slice(segs, i, j) == [];
      assert Text.At("", TextBetween(t, startMs', endMs'), 0);
    }
  }

  lemma EndedBounds(segs: seq<Segment>, ms: int, ms': int)
    requires Ordered(segs) && ms' <= ms
    ensures Ended(segs, ms') <= Ended(segs, ms)
  {
    if Ended(segs, ms) < |segs| {
      EndedAt(segs, ms, Ended(segs, ms));
      EndedAt(segs, ms', Ended(segs, ms));
    }
  }

  lemma BegunBounds(segs: seq<Segment>, ms: int, ms': int)
    requires Ordered(segs) && ms <= ms'
    ensures Begun(segs, ms) <= Begun(segs, ms')
  {
    if Begun(segs, ms') < |segs| {
      BegunAt(segs, ms, Begun(segs, ms'));
      BegunAt(segs, ms', Begun(segs, ms'));
    }
  }

  /** The text of any interval is an infix of the whole transcript. */
  lemma TextBetweenInFull(t: Transcript, startMs: int, endMs: int)
    requires Valid(t)
    ensures IsInfix(TextBetween(t, startMs, endMs), Spoken(t.segments))
  {
    var segs := t.segments;
    SelectedIsSlice(segs, startMs, endMs);
    var i, j := Ended(segs, startMs), Begun(segs, endMs);
    assert segs[0..|segs|] == segs;
    if i <= j {
      SpokenSlice(segs, i, j, 0, |segs|);
    } else {
      assert Text.At("", Spoken(segs), 0);
    }
  }

  /** Segments i..j-1 are all within the text between any times that enclose them. */
  lemma SliceInText(t: Transcript, i: nat, j: nat, startMs: int, endMs: int)
    requires Valid(t) && i < j <= |t.segments|
    requires startMs < t.segments[i].endMs && t.segments[j - 1].startMs < endMs
    ensures IsInfix(Spoken(t.segments[i..j]), TextBetween(t, startMs, endMs))
  {
    var segs := t.segments;
    SelectedIsSlice(segs, startMs, endMs);
    EndedAt(segs, startMs, i);
    BegunAt(segs, endMs, j - 1);
    SpokenSlice(segs, i, j, Ended(segs, startMs), Begun(segs, endMs));
  }
}
