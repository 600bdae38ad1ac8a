/**
 Matching on meaning, not bytes: `normalize` of edlo/ai/grounding.py.

 The character tables of Unicode are parameters: what one character decomposes to
 under NFKD, what it lower-cases to, and which characters `\w` and `\s` match.
 Everything is proved for all tables.
 */
module Text {
  datatype Unicode = Unicode(
    decompose: char -> string,
    lower: char -> string,
    isWord: char -> bool,
    isSpace: char -> bool)

  const APOSTROPHE := '\''
  const SMART_APOSTROPHE := '\U{2019}'
  const SMART_OPEN := '\U{201C}'
  const SMART_CLOSE := '\U{201D}'

  /** A space is white, apostrophes and word characters are not. */
  ghost predicate Sane(u: Unicode) {
    u.isSpace(' ') && !u.isSpace(APOSTROPHE) && forall c :: u.isWord(c) ==> !u.isSpace(c)
  }

  // ---- the pipeline

  function FlatMap(f: char -> string, s: string): string {
    if s == "" then "" else f(s[0]) + FlatMap(f, s[1..])
  }

  function Straight(c: char): string {
    if c == SMART_APOSTROPHE then [APOSTROPHE]
    else if c == SMART_OPEN || c == SMART_CLOSE then ['"']
    else [c]
  }

  function Cleaned(u: Unicode): char -> string {
    c => if u.isWord(c) || u.isSpace(c) || c == APOSTROPHE then [c] else " "
  }

  /** Everything before the whitespace is collapsed: one character at a time. */
  function Folded(u: Unicode, s: string): string {
    FlatMap(Cleaned(u), FlatMap(u.lower, FlatMap(Straight, FlatMap(u.decompose, s))))
  }

  function Collapsed(u: Unicode, s: string): string {
    if s == "" then ""
    else if u.isSpace(s[0]) then
      if |s| > 1 && u.isSpace(s[1]) then Collapsed(u, s[1..]) else " " + Collapsed(u, s[1..])
    else [s[0]] + Collapsed(u, s[1..])
  }

  function LStripped(u: Unicode, s: string): string {
    if s != "" && u.isSpace(s[0]) then LStripped(u, s[1..]) else s
  }

  function RStripped(u: Unicode, s: string): string
    decreases |s|
  {
    if s != "" && u.isSpace(s[|s| - 1]) then RStripped(u, s[..|s| - 1]) else s
  }

  function Stripped(u: Unicode, s: string): string { RStripped(u, LStripped(u, s)) }

  function Normalize(u: Unicode, s: string): string { Stripped(u, Collapsed(u, Folded(u, s))) }

  /** Python's `" ".join`. */
  function Joined(parts: seq<string>): string {
    if parts == [] then "" else if |parts| == 1 then parts[0] else parts[0] + " " + Joined(parts[1..])
  }

  // ---- infixes

  predicate At(x: string, y: string, i: nat) { i + |x| <= |y| && y[i..i + |x|] == x }

  /** Python's `x in y`. */
  predicate IsInfix(x: string, y: string) { exists i: nat | i <= |y| :: At(x, y, i) }

  lemma InfixOf(a: string, x: string, b: string)
    ensures IsInfix(x, a + x + b)
  {
    assert At(x, a + x + b, |a|);
  }

  lemma InfixSplit(x: string, y: string) returns (a: string, b: string)
    requires IsInfix(x, y)
    ensures y == a + x + b
  {
    var i: nat :| i <= |y| && At(x, y, i);
    a, b := y[..i], y[i + |x|..];
  }

  lemma InfixTransitive(x: string, y: string, z: string)
    requires IsInfix(x, y) && IsInfix(y, z)
    ensures IsInfix(x, z)
  {
    var a, b := InfixSplit(x, y);
    var c, d := InfixSplit(y, z);
    assert z == (c + a) + x + (b + d);
    InfixOf(c + a, x, b + d);
  }

  // ---- folding and collapsing a concatenation

  lemma {:induction false} FlatMapConcat(f: char -> string, a: string, b: string)
    ensures FlatMap(f, a + b) == FlatMap(f, a) + FlatMap(f, b)
  {
    if a == "" {
      assert a + b == b;
    } else {
      FlatMapConcat(f, a[1..], b);
      assert (a + b)[1..] == a[1..] + b;
    }
  }

  lemma FoldedConcat(u: Unicode, a: string, b: string)
    ensures Folded(u, a + b) == Folded(u, a) + Folded(u, b)
  {
    FlatMapConcat(u.decompose, a, b);
    var a1, b1 := FlatMap(u.decompose, a), FlatMap(u.decompose, b);
    FlatMapConcat(Straight, a1, b1);
    FlatMapConcat(u.lower, FlatMap(Straight, a1), FlatMap(Straight, b1));
    FlatMapConcat(Cleaned(u), FlatMap(u.lower, FlatMap(Straight, a1)), FlatMap(u.lower, FlatMap(Straight, b1)));
  }

  /** The two halves meet in the middle of one run of whitespace. */
  predicate Meet(u: Unicode, a: string, b: string) {
    a != "" && b != "" && u.isSpace(a[|a| - 1]) && u.isSpace(b[0])
  }

  lemma {:induction false} CollapsedEndsLike(u: Unicode, a: string)
    requires a != "" && u.isSpace(a[|a| - 1])
    ensures Collapsed(u, a) != "" && Collapsed(u, a)[|Collapsed(u, a)| - 1] == ' '
  {
    if |a| > 1 {
      CollapsedEndsLike(u, a[1..]);
    }
  }

  lemma {:induction false} CollapsedConcat(u: Unicode, a: string, b: string)
    ensures Meet(u, a, b) ==> Collapsed(u, a) != ""
    ensures Collapsed(u, a + b) ==
      (if Meet(u, a, b) then Collapsed(u, a)[..|Collapsed(u, a)| - 1] else Collapsed(u, a)) + Collapsed(u, b)
  {
    if a == "" {
      assert a + b == b;
    } else {
      if Meet(u, a, b) {
        CollapsedEndsLike(u, a);
      }
      assert (a + b)[1..] == a[1..] + b;
      CollapsedConcat(u, a[1..], b);
      if |a| > 1 {
        assert Meet(u, a, b) == Meet(u, a[1..], b);
      } else {
        assert a[1..] + b == b;
      }
    }
  }

  /** An infix that neither begins nor ends in whitespace survives stripping. */
  predicate Solid(u: Unicode, x: string) {
    x == "" || (!u.isSpace(x[0]) && !u.isSpace(x[|x| - 1]))
  }

  lemma {:induction false} SurvivesLStrip(u: Unicode, x: string, y: string)
    requires Solid(u, x) && IsInfix(x, y)
    ensures IsInfix(x, LStripped(u, y))
    decreases |y|
  {
    if x == "" {
      assert At(x, LStripped(u, y), 0);
    } else if y != "" && u.isSpace(y[0]) {
      var i: nat :| i <= |y| && At(x, y, i);
      assert y[i] == x[0];
      assert At(x, y[1..], i - 1);
      SurvivesLStrip(u, x, y[1..]);
    }
  }

  lemma {:induction false} SurvivesRStrip(u: Unicode, x: string, y: string)
    requires Solid(u, x) && IsInfix(x, y)
    ensures IsInfix(x, RStripped(u, y))
    decreases |y|
  {
    if x == "" {
      assert At(x, RStripped(u, y), 0);
    } else if y != "" && u.isSpace(y[|y| - 1]) {
      var i: nat :| i <= |y| && At(x, y, i);
      assert y[i + |x| - 1] == x[|x| - 1];
      assert At(x, y[..|y| - 1], i);
      SurvivesRStrip(u, x, y[..|y| - 1]);
    }
  }

  lemma {:induction false} LStripSplits(u: Unicode, s: string) returns (k: nat)
    ensures k <= |s| && s[k..] == LStripped(u, s)
    ensures LStripped(u, s) == "" || !u.isSpace(LStripped(u, s)[0])
  {
    if s != "" && u.isSpace(s[0]) {
      k := LStripSplits(u, s[1..]);
      k := k + 1;
      assert s[k..] == s[1..][k - 1..];
    } else {
      k := 0;
    }
  }

  lemma {:induction false} RStripSplits(u: Unicode, s: string)
    ensures var r := RStripped(u, s);
            |r| <= |s| && s[..|r|] == r && (r == "" || !u.isSpace(r[|r| - 1]))
    decreases |s|
  {
    if s != "" && u.isSpace(s[|s| - 1]) {
      RStripSplits(u, s[..|s| - 1]);
    }
  }

  lemma StrippedIsSolid(u: Unicode, s: string)
    ensures Solid(u, Stripped(u, s)) && IsInfix(Stripped(u, s), s)
  {
    var k := LStripSplits(u, s);
    var l := LStripped(u, s);
    RStripSplits(u, l);
    var r := Stripped(u, s);
    assert At(r, s, k);
    assert r != "" ==> r[0] == l[0];
  }

  /** Stripping ignores trailing whitespace. */
  lemma StrippedWithoutLast(u: Unicode, s: string)
    requires s != "" && u.isSpace(s[|s| - 1])
    ensures IsInfix(Stripped(u, s), s[..|s| - 1])
  {
    StrippedIsSolid(u, s);
    var r := Stripped(u, s);
    var i: nat :| i <= |s| && At(r, s, i);
    if r == "" {
      assert At(r, s[..|s| - 1], 0);
    } else {
      assert s[i + |r| - 1] == r[|r| - 1];
      assert At(r, s[..|s| - 1], i);
    }
  }

  /** Collapse a text with x in the middle: the stripped collapse of x is in there. */
  lemma CollapsedAround(u: Unicode, a: string, x: string, b: string)
    requires Sane(u)
    ensures IsInfix(Stripped(u, Collapsed(u, x)), Collapsed(u, a + x + b))
  {
    var cx := Collapsed(u, x);
    var core := Stripped(u, cx);
    if x == "" {
      assert core == "" && At(core, Collapsed(u, a + x + b), 0);
      return;
    }
    CollapsedConcat(u, a, x);
    var before := if Meet(u, a, x) then Collapsed(u, a)[..|Collapsed(u, a)| - 1] else Collapsed(u, a);
    assert Collapsed(u, a + x) == before + cx;
    CollapsedConcat(u, a + x, b);
    StrippedIsSolid(u, cx);
    if Meet(u, a + x, b) {
      CollapsedEndsLike(u, x);
      var short := cx[..|cx| - 1];
      StrippedWithoutLast(u, cx);
      assert (before + cx)[..|before + cx| - 1] == before + short;
      InfixOf(before, short, Collapsed(u, b));
      InfixTransitive(core, short, Collapsed(u, a + x + b));
    } else {
      InfixOf(before, cx, Collapsed(u, b));
      InfixTransitive(core, cx, Collapsed(u, a + x + b));
    }
  }

  /** Normalising keeps infixes: a verbatim excerpt is still found after normalisation,
      wherever in the text it was cut. */
  lemma NormalizeMonotone(u: Unicode, x: string, y: string)
    requires Sane(u) && IsInfix(x, y)
    ensures IsInfix(Normalize(u, x), Normalize(u, y))
  {
    var a, b := InfixSplit(x, y);
    FoldedConcat(u, a, x);
    FoldedConcat(u, a + x, b);
    CollapsedAround(u, Folded(u, a), Folded(u, x), Folded(u, b));
    StrippedIsSolid(u, Collapsed(u, Folded(u, x)));
    SurvivesLStrip(u, Normalize(u, x), Collapsed(u, Folded(u, y)));
    SurvivesRStrip(u, Normalize(u, x), LStripped(u, Collapsed(u, Folded(u, y))));
  }

  // ---- what a normal form is, and what it forgets

  predicate Plain(u: Unicode, c: char) { u.isWord(c) || c == APOSTROPHE || c == ' ' }

  ghost predicate Normal(u: Unicode, s: string) {
    && Solid(u, s)
    && (forall i :: 0 <= i < |s| ==> Plain(u, s[i]))
    && (forall i :: 0 < i < |s| ==> !(s[i - 1] == ' ' && s[i] == ' '))
  }

  lemma {:induction false} CollapsedShape(u: Unicode, s: string)
    requires Sane(u) && forall i :: 0 <= i < |s| ==> Plain(u, s[i]) || u.isSpace(s[i])
    ensures var r := Collapsed(u, s);
            && (forall i :: 0 <= i < |r| ==> Plain(u, r[i]))
            && (forall i :: 0 < i < |r| ==> !(r[i - 1] == ' ' && r[i] == ' '))
            && (s != "" ==> r != "" && (r[0] == ' ' <==> u.isSpace(s[0])))
  {
    if s != "" {
      CollapsedShape(u, s[1..]);
    }
  }

  lemma {:induction false} CleanedShape(u: Unicode, s: string)
    requires Sane(u)
    ensures forall i :: 0 <= i < |FlatMap(Cleaned(u), s)| ==>
      Plain(u, FlatMap(Cleaned(u), s)[i]) || u.isSpace(FlatMap(Cleaned(u), s)[i])
  {
    if s != "" {
      CleanedShape(u, s[1..]);
    }
  }

  /** Words and apostrophes, one space between, none around. */
  lemma NormalizeIsNormal(u: Unicode, s: string)
    requires Sane(u)
    ensures Normal(u, Normalize(u, s))
  {
    CleanedShape(u, FlatMap(u.lower, FlatMap(Straight, FlatMap(u.decompose, s))));
    var c := Collapsed(u, Folded(u, s));
    CollapsedShape(u, Folded(u, s));
    StrippedIsSolid(u, c);
    var i: nat :| i <= |c| && At(Normalize(u, s), c, i);
    forall k | 0 <= k < |Normalize(u, s)| ensures Normalize(u, s)[k] == c[i + k] {
    }
  }

  function Straightened(s: string): string { FlatMap(Straight, s) }

  /** Typographic quotes are left alone by NFKD, as are plain ones. */
  predicate QuotesAreAtoms(u: Unicode) {
    && u.decompose(SMART_APOSTROPHE) == [SMART_APOSTROPHE] && u.decompose(APOSTROPHE) == [APOSTROPHE]
    && u.decompose(SMART_OPEN) == [SMART_OPEN] && u.decompose(SMART_CLOSE) == [SMART_CLOSE] && u.decompose('"') == ['"']
  }

  lemma {:induction false} StraightenedFirst(u: Unicode, s: string)
    requires QuotesAreAtoms(u)
    ensures FlatMap(Straight, FlatMap(u.decompose, Straightened(s))) == FlatMap(Straight, FlatMap(u.decompose, s))
  {
    if s != "" {
      StraightenedFirst(u, s[1..]);
      var c := Straight(s[0])[0];
      assert Straightened(s) == [c] + Straightened(s[1..]);
      FlatMapConcat(u.decompose, [c], Straightened(s[1..]));
      FlatMapConcat(Straight, FlatMap(u.decompose, [c]), FlatMap(u.decompose, Straightened(s[1..])));
      FlatMapConcat(Straight, u.decompose(s[0]), FlatMap(u.decompose, s[1..]));
      assert [c][1..] == "" && u.decompose(c) + "" == u.decompose(c);
      assert FlatMap(u.decompose, [c]) == u.decompose(c);
      assert [s[0]][1..] == "";
      OneStraight(u, s[0]);
    }
  }

  lemma OneStraight(u: Unicode, c: char)
    requires QuotesAreAtoms(u)
    ensures FlatMap(Straight, u.decompose(Straight(c)[0])) == FlatMap(Straight, u.decompose(c))
  {
    assert [c][1..] == "" && Straight(c)[1..] == "";
    assert forall d: char :: FlatMap(Straight, [d]) == Straight(d) + FlatMap(Straight, [d][1..]);
  }

  /** The same character, or the same quotation mark in another form. */
  predicate SameButForm(c: char, d: char) {
    c == d || {c, d} <= {'\'', '\U{2019}'} || {c, d} <= {'"', '\U{201C}', '\U{201D}'}
  }

  lemma {:induction false} SameStraightened(s: string, t: string)
    requires |s| == |t| && forall i :: 0 <= i < |s| ==> SameButForm(s[i], t[i])
    ensures Straightened(s) == Straightened(t)
  {
    if s != "" {
      SameStraightened(s[1..], t[1..]);
      assert SameButForm(s[0], t[0]) && s[0] in {s[0], t[0]} && t[0] in {s[0], t[0]};
    }
  }

  /** A smart quote where the transcript has a straight one makes no difference. */
  lemma SmartQuotesAgree(u: Unicode, s: string, t: string)
    requires QuotesAreAtoms(u) && |s| == |t| && forall i :: 0 <= i < |s| ==> SameButForm(s[i], t[i])
    ensures Normalize(u, s) == Normalize(u, t)
  {
    SameStraightened(s, t);
    StraightenedFirst(u, s);
    StraightenedFirst(u, t);
  }
}
