/**
 What a normal form says (edlo/ai/grounding.py): the words of a text, in order, in lower case,
 with one space between. And what it means that one normal form occurs in another: the words
 of the one are consecutive words of the other, the outer two perhaps only in part.
 */
module Words {
  import opened Text

  predicate InWord(u: Unicode, c: char) { u.isWord(c) || c == '\'' }

  /** The words of a text: its maximal runs of word characters and apostrophes, in order. */
  function WordsOf(u: Unicode, s: string): (r: seq<string>)
    ensures s != "" && InWord(u, s[0]) ==> r != []
  {
    if s == "" then []
    else if !InWord(u, s[0]) then WordsOf(u, s[1..])
    else if |s| > 1 && InWord(u, s[1]) then
      var rest := WordsOf(u, s[1..]);
      [[s[0]] + rest[0]] + rest[1..]
    else [[s[0]]] + WordsOf(u, s[1..])
  }

  /** How a text is spelled: decomposed, its typographic quotes straight, in lower case. */
  function Spelled(u: Unicode, s: string): string {
    FlatMap(u.lower, FlatMap(Straight, FlatMap(u.decompose, s)))
  }

  // ---- words are maximal runs, in order

  lemma {:induction false} OneRunIsOneWord(u: Unicode, s: string)
    requires s != "" && forall i :: 0 <= i < |s| ==> InWord(u, s[i])
    ensures WordsOf(u, s) == [s]
  {
    assert s == [s[0]] + s[1..];
    if |s| > 1 {
      OneRunIsOneWord(u, s[1..]);
      assert [[s[0]] + s[1..]] + [] == [s];
    } else {
      assert s[1..] == "" && [s[0]] == s;
    }
  }

  /** What separates words is any other character, whichever and however many. */
  lemma {:induction false} WordsBreak(u: Unicode, a: string, c: char, b: string)
    requires !InWord(u, c)
    ensures WordsOf(u, a + [c] + b) == WordsOf(u, a) + WordsOf(u, b)
  {
    var s := a + [c] + b;
    if a == "" {
      assert s[1..] == b;
    } else {
      assert s[1..] == a[1..] + [c] + b;
      WordsBreak(u, a[1..], c, b);
      assert |a| > 1 ==> s[1] == a[1];
    }
  }

  predicate Wordy(u: Unicode, w: string) {
    w != "" && forall i :: 0 <= i < |w| ==> InWord(u, w[i])
  }

  lemma {:induction false} WordsAreWordy(u: Unicode, s: string)
    ensures forall w :: w in WordsOf(u, s) ==> Wordy(u, w)
  {
    if s != "" {
      WordsAreWordy(u, s[1..]);
      var rest := WordsOf(u, s[1..]);
      if InWord(u, s[0]) && |s| > 1 && InWord(u, s[1]) {
        assert rest[0] in rest && Wordy(u, [s[0]] + rest[0]);
      }
    }
  }

  lemma {:induction false} NoWordsIn(u: Unicode, s: string)
    ensures WordsOf(u, s) == [] <==> forall i :: 0 <= i < |s| ==> !InWord(u, s[i])
  {
    if s != "" && !InWord(u, s[0]) {
      NoWordsIn(u, s[1..]);
      assert forall i :: 0 < i < |s| ==> s[i] == s[1..][i - 1];
    }
  }

  // ---- a normal form is the words with single spaces between

  lemma {:induction false} CleanedKeepsWords(u: Unicode, s: string)
    requires Sane(u)
    ensures var t := FlatMap(Cleaned(u), s);
            && |t| == |s| && WordsOf(u, t) == WordsOf(u, s)
            && forall i :: 0 <= i < |t| ==> if InWord(u, s[i]) then t[i] == s[i] else u.isSpace(t[i]) && !InWord(u, t[i])
  {
    if s != "" {
      CleanedKeepsWords(u, s[1..]);
      var t := FlatMap(Cleaned(u), s);
      assert t[1..] == FlatMap(Cleaned(u), s[1..]);
    }
  }

  /** A space where there is whitespace. */
  function Edge(u: Unicode, s: string, i: nat): string
    requires i < |s|
  {
    if u.isSpace(s[i]) then " " else ""
  }

  ghost predicate CollapsesToWords(u: Unicode, s: string) {
    var ws := WordsOf(u, s);
    Collapsed(u, s) == if s == "" then "" else if ws == [] then " " else Edge(u, s, 0) + Joined(ws) + Edge(u, s, |s| - 1)
  }

  /** Of words and whitespace, what collapsing leaves. */
  lemma {:induction false} CollapsedIsJoined(u: Unicode, s: string)
    requires Sane(u) && forall i :: 0 <= i < |s| ==> InWord(u, s[i]) || u.isSpace(s[i])
    ensures CollapsesToWords(u, s)
  {
    if s != "" {
      CollapsedIsJoined(u, s[1..]);
      NoWordsIn(u, s[1..]);
      if !InWord(u, s[0]) {
        SpaceFirst(u, s);
      } else {
        LetterFirst(u, s);
      }
    }
  }

  lemma SpaceFirst(u: Unicode, s: string)
    requires Sane(u) && s != "" && u.isSpace(s[0]) && !InWord(u, s[0]) && CollapsesToWords(u, s[1..])
    requires forall i :: 0 <= i < |s| ==> InWord(u, s[i]) || u.isSpace(s[i])
    ensures CollapsesToWords(u, s)
  {
    var t := s[1..];
    assert t != "" ==> t[|t| - 1] == s[|s| - 1];
  }

  lemma LetterFirst(u: Unicode, s: string)
    requires Sane(u) && s != "" && InWord(u, s[0]) && CollapsesToWords(u, s[1..])
    requires forall i :: 0 <= i < |s| ==> InWord(u, s[i]) || u.isSpace(s[i])
    requires WordsOf(u, s[1..]) == [] <==> forall i :: 0 <= i < |s[1..]| ==> !InWord(u, s[1..][i])
    ensures CollapsesToWords(u, s)
  {
    var t := s[1..];
    var rest := WordsOf(u, t);
    assert t != "" ==> t[|t| - 1] == s[|s| - 1];
    if t != "" && InWord(u, t[0]) {
      assert WordsOf(u, s)[1..] == rest[1..];
      assert Joined(WordsOf(u, s)) == [s[0]] + Joined(rest);
    } else if rest != [] {
      assert WordsOf(u, s)[1..] == rest;
      assert Joined(WordsOf(u, s)) == [s[0]] + " " + Joined(rest);
    }
  }

  lemma {:induction false} JoinedIsSolid(u: Unicode, ws: seq<string>)
    requires Sane(u) && forall w :: w in ws ==> Wordy(u, w)
    ensures Solid(u, Joined(ws)) && (ws != [] ==> Joined(ws) != "")
  {
    if |ws| > 1 {
      assert forall w :: w in ws[1..] ==> w in ws;
      JoinedIsSolid(u, ws[1..]);
      assert ws[0] in ws && ws[1] in ws;
    } else if |ws| == 1 {
      assert ws[0] in ws;
    }
  }

  lemma StripAround(u: Unicode, before: string, x: string, after: string)
    requires Sane(u) && Solid(u, x) && x != "" && before in {"", " "} && after in {"", " "}
    ensures Stripped(u, before + x + after) == x
  {
    var s := before + x + after;
    assert before == " " ==> s[1..] == x + after;
    assert (x + after)[0] == x[0];
    assert LStripped(u, s) == x + after by {
      if before == "" {
        assert s == x + after;
      }
    }
    if after == " " {
      assert (x + after)[|x|] == ' ' && (x + after)[..|x|] == x;
      assert RStripped(u, x) == x && RStripped(u, x + after) == RStripped(u, (x + after)[..|x|]);
    } else {
      assert x + after == x;
    }
  }

  /** The normal form of a text is its words, in order: those of its spelling, whatever
      separates them there. */
  lemma NormalFormIsWords(u: Unicode, s: string)
    requires Sane(u)
    ensures Normalize(u, s) == Joined(WordsOf(u, Spelled(u, s)))
  {
    var f, ws := Folded(u, s), WordsOf(u, Spelled(u, s));
    CleanedKeepsWords(u, Spelled(u, s));
    CollapsedIsJoined(u, f);
    WordsAreWordy(u, Spelled(u, s));
    JoinedIsSolid(u, ws);
    if f != "" && ws != [] {
      StripAround(u, if u.isSpace(f[0]) then " " else "", Joined(ws), if u.isSpace(f[|f| - 1]) then " " else "");
    } else if f != "" {
      assert Collapsed(u, f) == " ";
      assert LStripped(u, " ") == LStripped(u, " "[1..]);
    }
  }

  // ---- what makes no difference, and what does

  /** NFKD leaves the character alone, and it is no typographic quote. */
  predicate Atom(u: Unicode, c: char) { u.decompose(c) == [c] && c !in {'\U{2019}', '\U{201C}', '\U{201D}'} }

  lemma SpelledFirst(u: Unicode, s: string)
    requires s != ""
    ensures Spelled(u, s) == Spelled(u, [s[0]]) + Spelled(u, s[1..])
  {
    var a, b := [s[0]], s[1..];
    assert s == a + b;
    FlatMapConcat(u.decompose, a, b);
    FlatMapConcat(Straight, FlatMap(u.decompose, a), FlatMap(u.decompose, b));
    FlatMapConcat(u.lower, FlatMap(Straight, FlatMap(u.decompose, a)), FlatMap(Straight, FlatMap(u.decompose, b)));
  }

  lemma OneChar(f: char -> string, c: char)
    ensures FlatMap(f, [c]) == f(c)
  {
    assert [c][1..] == "" && f(c) + "" == f(c);
  }

  lemma AtomSpelled(u: Unicode, c: char)
    requires Atom(u, c)
    ensures Spelled(u, [c]) == u.lower(c)
  {
    OneChar(u.decompose, c);
    OneChar(Straight, c);
    OneChar(u.lower, c);
  }

  lemma {:induction false} SpelledAlike(u: Unicode, s: string, t: string)
    requires |s| == |t| && forall i :: 0 <= i < |s| ==> Spelled(u, [s[i]]) == Spelled(u, [t[i]])
    ensures Spelled(u, s) == Spelled(u, t)
  {
    if s != "" {
      SpelledFirst(u, s);
      SpelledFirst(u, t);
      SpelledAlike(u, s[1..], t[1..]);
    }
  }

  /** Texts that differ only in case have one normal form. */
  lemma CaseMakesNoDifference(u: Unicode, s: string, t: string)
    requires |s| == |t|
    requires forall i :: 0 <= i < |s| ==> s[i] == t[i] || (Atom(u, s[i]) && Atom(u, t[i]) && u.lower(s[i]) == u.lower(t[i]))
    ensures Normalize(u, s) == Normalize(u, t)
  {
    forall i | 0 <= i < |s| ensures Spelled(u, [s[i]]) == Spelled(u, [t[i]]) {
      if s[i] != t[i] {
        AtomSpelled(u, s[i]);
        AtomSpelled(u, t[i]);
      }
    }
    SpelledAlike(u, s, t);
  }

  lemma {:induction false} MapsToItself(f: char -> string, s: string)
    requires forall i :: 0 <= i < |s| ==> f(s[i]) == [s[i]]
    ensures FlatMap(f, s) == s
  {
    if s != "" {
      MapsToItself(f, s[1..]);
      assert s == [s[0]] + s[1..];
    }
  }

  /** Nor does it make a difference to write ligatures and the like out. */
  lemma SpellingOutMakesNoDifference(u: Unicode, s: string, t: string)
    requires t == FlatMap(u.decompose, s) && forall i :: 0 <= i < |t| ==> u.decompose(t[i]) == [t[i]]
    ensures Normalize(u, s) == Normalize(u, t)
  {
    MapsToItself(u.decompose, t);
  }

  lemma {:induction false} CollapsesToItself(u: Unicode, s: string)
    requires Sane(u) && forall i :: 0 <= i < |s| ==> Plain(u, s[i])
    requires forall i :: 0 < i < |s| ==> !(s[i - 1] == ' ' && s[i] == ' ')
    ensures Collapsed(u, s) == s
  {
    if s != "" {
      var t := s[1..];
      assert forall i :: 0 <= i < |t| ==> t[i] == s[i + 1];
      CollapsesToItself(u, t);
      assert s == [s[0]] + t;
      assert |s| > 1 ==> s[1] == t[0];
    }
  }

  /** A text in lower case, of words and apostrophes with single spaces, is its own normal form. */
  lemma NormalTextIsKept(u: Unicode, s: string)
    requires Sane(u) && Normal(u, s)
    requires forall i :: 0 <= i < |s| ==> Atom(u, s[i]) && u.lower(s[i]) == [s[i]]
    ensures Normalize(u, s) == s
  {
    MapsToItself(u.decompose, s);
    MapsToItself(Straight, s);
    MapsToItself(u.lower, s);
    MapsToItself(Cleaned(u), s);
    CollapsesToItself(u, s);
  }

  // ---- one text in another

  /** Consecutive words of vs from the k-th on: the first one's end, all of those between, and
      the last one's beginning; of one word any part. */
  predicate WordsAt(ws: seq<string>, vs: seq<string>, k: nat) {
    && k + |ws| <= |vs|
    && match |ws|
       case 0 => true
       case 1 => IsInfix(ws[0], vs[k])
       case n =>
         && EndsWith(vs[k], ws[0]) && ws[n - 1] <= vs[k + n - 1]
         && forall i :: 0 < i < n - 1 ==> ws[i] == vs[k + i]
  }

  predicate EndsWith(s: string, x: string) { |x| <= |s| && s[|s| - |x|..] == x }

  predicate WordsIn(ws: seq<string>, vs: seq<string>) { exists k: nat | k <= |vs| :: WordsAt(ws, vs, k) }

  predicate Unbroken(ws: seq<string>) {
    forall i :: 0 <= i < |ws| ==> ws[i] != "" && ' ' !in ws[i]
  }

  lemma JoinedFirst(ws: seq<string>)
    requires |ws| > 1
    ensures Joined(ws) == ws[0] + " " + Joined(ws[1..]) && Joined(ws)[|ws[0]|] == ' '
    ensures Joined(ws)[|ws[0]| + 1..] == Joined(ws[1..]) && Joined(ws)[..|ws[0]|] == ws[0]
  {
  }

  lemma JoinedNotEmpty(ws: seq<string>)
    requires Unbroken(ws) && ws != []
    ensures Joined(ws) != "" && ws[0] <= Joined(ws) && Joined(ws)[0] != ' '
  {
  }

  predicate BeginsLike(ws: seq<string>, vs: seq<string>)
    requires ws != []
  {
    |ws| <= |vs| && ws[|ws| - 1] <= vs[|ws| - 1] && forall i :: 0 <= i < |ws| - 1 ==> ws[i] == vs[i]
  }

  lemma HasSpace(x: string, y: string, i: nat, k: nat)
    requires At(x, y, i) && i <= k < i + |x| && y[k] == ' '
    ensures ' ' in x
  {
    assert y[i..i + |x|][k - i] == ' ';
  }

  lemma FirstHasSpace(vs: seq<string>, k: nat)
    requires vs != [] && k < |vs[0]| && Joined(vs)[k] == ' '
    ensures ' ' in vs[0]
  {
    assert vs[0][k] == ' ';
  }

  /** A text without spaces that starts within the first word ends within it. */
  lemma FitsBefore(x: string, vs: seq<string>, i: nat)
    requires Unbroken(vs) && vs != [] && x != "" && ' ' !in x && i < |vs[0]| && At(x, Joined(vs), i)
    ensures i + |x| <= |vs[0]| && vs[0][i..i + |x|] == x
  {
    assert vs[0] <= Joined(vs);
    if |vs| > 1 && i + |x| > |vs[0]| {
      JoinedFirst(vs);
      HasSpace(x, Joined(vs), i, |vs[0]|);
    }
  }

  /** And if a space follows it there, it ends with the word. */
  lemma SpaceComesLater(x: string, vs: seq<string>, i: nat)
    requires Unbroken(vs) && vs != [] && x != "" && ' ' !in x && i < |vs[0]| && At(x, Joined(vs), i)
    requires i + |x| < |Joined(vs)| && Joined(vs)[i + |x|] == ' '
    ensures i + |x| == |vs[0]| && vs[0][i..] == x && |vs| > 1
  {
    FitsBefore(x, vs, i);
    if i + |x| < |vs[0]| {
      FirstHasSpace(vs, i + |x|);
    }
  }

  lemma {:induction false} PrefixBegins(ws: seq<string>, vs: seq<string>)
    requires Unbroken(ws) && Unbroken(vs) && ws != [] && vs != [] && Joined(ws) <= Joined(vs)
    ensures BeginsLike(ws, vs)
    decreases |ws|
  {
    hide Joined;
    JoinedNotEmpty(ws);
    JoinedNotEmpty(vs);
    assert Joined(vs)[..|ws[0]|] == ws[0];
    if |ws| == 1 {
      OneJoined(ws);
      FitsBefore(ws[0], vs, 0);
    } else {
      JoinedFirst(ws);
      SpaceComesLater(ws[0], vs, 0);
      JoinedFirst(vs);
      assert ws[0] == vs[0];
      PrefixBegins(ws[1..], vs[1..]);
      assert forall i :: 0 < i < |ws| - 1 ==> ws[i] == ws[1..][i - 1] && vs[i] == vs[1..][i - 1];
    }
  }

  lemma OneJoined(ws: seq<string>)
    requires |ws| == 1
    ensures Joined(ws) == ws[0]
  {
  }

  lemma {:induction false} BeginsIsPrefix(ws: seq<string>, vs: seq<string>)
    requires ws != [] && BeginsLike(ws, vs)
    ensures Joined(ws) <= Joined(vs)
    decreases |ws|
  {
    if |vs| > 1 {
      JoinedFirst(vs);
    }
    if |ws| > 1 {
      JoinedFirst(ws);
      assert forall i :: 0 <= i < |ws[1..]| - 1 ==> ws[1..][i] == ws[i + 1] && vs[1..][i] == vs[i + 1];
      BeginsIsPrefix(ws[1..], vs[1..]);
    }
  }

  lemma {:induction false} InfixGivesWords(ws: seq<string>, vs: seq<string>, i: nat) returns (k: nat)
    requires Unbroken(ws) && Unbroken(vs) && ws != [] && vs != [] && At(Joined(ws), Joined(vs), i)
    ensures WordsAt(ws, vs, k)
    decreases |vs|
  {
    hide Joined;
    JoinedNotEmpty(ws);
    JoinedNotEmpty(vs);
    var x, y := Joined(ws), Joined(vs);
    assert y[i] == x[0];
    if i < |vs[0]| {
      k := 0;
      if |ws| == 1 {
        OneJoined(ws);
        FitsBefore(x, vs, i);
        assert At(x, vs[0], i);
      } else {
        InfixFromFirst(ws, vs, i);
      }
    } else if |vs| == 1 {
      OneJoined(vs);
      assert false;
    } else {
      JoinedFirst(vs);
      var rest := vs[1..];
      assert At(x, Joined(rest), i - |vs[0]| - 1);
      k := InfixGivesWords(ws, rest, i - |vs[0]| - 1);
      WordsAtLater(ws, vs, k);
      k := k + 1;
    }
  }

  lemma WordsAtLater(ws: seq<string>, vs: seq<string>, k: nat)
    requires vs != []
    ensures WordsAt(ws, vs[1..], k) <==> WordsAt(ws, vs, k + 1)
  {
    assert forall i :: 0 <= i < |vs[1..]| ==> vs[1..][i] == vs[i + 1];
    if |ws| > 1 && WordsAt(ws, vs, k + 1) {
      forall i | 0 < i < |ws| - 1 ensures ws[i] == vs[1..][k + i] {
        assert ws[i] == vs[k + 1 + i];
      }
    }
  }

  lemma AtParts(x: string, y: string, i: nat, k: nat)
    requires At(x, y, i) && k <= |x|
    ensures At(x[..k], y, i) && At(x[k..], y, i + k) && (k < |x| ==> y[i + k] == x[k])
  {
    assert y[i..i + k] == y[i..i + |x|][..k];
    assert y[i + k..i + |x|] == y[i..i + |x|][k..];
  }

  lemma AtTail(x: string, y: string, i: nat)
    requires At(x, y, i)
    ensures x <= y[i..]
  {
    assert y[i..][..|x|] == y[i..i + |x|];
  }

  lemma InfixFromFirst(ws: seq<string>, vs: seq<string>, i: nat)
    requires Unbroken(ws) && Unbroken(vs) && |ws| > 1 && vs != [] && At(Joined(ws), Joined(vs), i) && i < |vs[0]|
    ensures WordsAt(ws, vs, 0)
  {
    hide Joined;
    var x, y := Joined(ws), Joined(vs);
    JoinedFirst(ws);
    AtParts(x, y, i, |ws[0]|);
    SpaceComesLater(ws[0], vs, i);
    JoinedFirst(vs);
    AtParts(x, y, i, |ws[0]| + 1);
    AtTail(Joined(ws[1..]), y, |vs[0]| + 1);
    PrefixBegins(ws[1..], vs[1..]);
    assert forall j :: 0 < j < |ws| - 1 ==> ws[j] == ws[1..][j - 1] && vs[j] == vs[1..][j - 1];
  }

  lemma {:induction false} WordsGiveInfix(ws: seq<string>, vs: seq<string>, k: nat)
    requires ws != [] && WordsAt(ws, vs, k)
    ensures IsInfix(Joined(ws), Joined(vs))
    decreases |vs|
  {
    hide Joined, IsInfix, WordsAt;
    assert vs != [] && (k > 0 ==> |vs| > 1) by { WordsAtLength(ws, vs, k); }
    if k > 0 {
      WordsAtLater(ws, vs, k - 1);
      WordsGiveInfix(ws, vs[1..], k - 1);
      JoinedFirst(vs);
      assert Joined(vs) == (vs[0] + " ") + Joined(vs[1..]) + "";
      InfixOf(vs[0] + " ", Joined(vs[1..]), "");
      InfixTransitive(Joined(ws), Joined(vs[1..]), Joined(vs));
    } else {
      WordsFromFirst(ws, vs);
    }
  }

  lemma WordsAtLength(ws: seq<string>, vs: seq<string>, k: nat)
    requires ws != [] && WordsAt(ws, vs, k)
    ensures k < |vs|
  {
  }

  lemma WordsFromFirst(ws: seq<string>, vs: seq<string>)
    requires ws != [] && WordsAt(ws, vs, 0)
    ensures IsInfix(Joined(ws), Joined(vs))
  {
    hide Joined, IsInfix;
    var x, y := Joined(ws), Joined(vs);
    var tail := if |vs| > 1 then " " + Joined(vs[1..]) else "";
    if |vs| > 1 {
      JoinedFirst(vs);
    } else {
      OneJoined(vs);
    }
    if |ws| == 1 {
      OneJoined(ws);
      assert y == "" + vs[0] + tail;
      InfixOf("", vs[0], tail);
      InfixTransitive(x, vs[0], y);
    } else {
      JoinedFirst(ws);
      assert forall i :: 0 <= i < |ws[1..]| - 1 ==> ws[1..][i] == ws[i + 1] && vs[1..][i] == vs[i + 1];
      BeginsIsPrefix(ws[1..], vs[1..]);
      var i := |vs[0]| - |ws[0]|;
      var rest := Joined(vs[1..])[|Joined(ws[1..])|..];
      assert Joined(vs[1..]) == Joined(ws[1..]) + rest;
      assert vs[0] == vs[0][..i] + ws[0];
      assert y == vs[0][..i] + x + rest;
      InfixOf(vs[0][..i], x, rest);
    }
  }

  /** One normal form occurs in another if and only if its words do. */
  lemma InfixIff(ws: seq<string>, vs: seq<string>)
    requires Unbroken(ws) && Unbroken(vs)
    ensures IsInfix(Joined(ws), Joined(vs)) <==> WordsIn(ws, vs)
  {
    if ws == [] {
      assert At("", Joined(vs), 0) && WordsAt(ws, vs, 0);
    } else {
      if i: nat :| i <= |Joined(vs)| && At(Joined(ws), Joined(vs), i) {
        JoinedNotEmpty(ws);
        var k := InfixGivesWords(ws, vs, i);
      }
      if k: nat :| k <= |vs| && WordsAt(ws, vs, k) {
        WordsGiveInfix(ws, vs, k);
      }
    }
  }

  lemma WordsAreUnbroken(u: Unicode, s: string)
    requires Sane(u)
    ensures Unbroken(WordsOf(u, s))
  {
    WordsAreWordy(u, s);
    var ws := WordsOf(u, s);
    forall i | 0 <= i < |ws| ensures ws[i] != "" && ' ' !in ws[i] {
      assert ws[i] in ws;
    }
  }

  /** What it means that a quote is found in a text: its words stand there one after another,
      in any case and whatever is between them, the first perhaps the end of a longer one and
      the last the beginning of one. */
  lemma FoundIff(u: Unicode, quote: string, text: string)
    requires Sane(u)
    ensures IsInfix(Normalize(u, quote), Normalize(u, text))
            <==> WordsIn(WordsOf(u, Spelled(u, quote)), WordsOf(u, Spelled(u, text)))
  {
    NormalFormIsWords(u, quote);
    NormalFormIsWords(u, text);
    WordsAreUnbroken(u, Spelled(u, quote));
    WordsAreUnbroken(u, Spelled(u, text));
    InfixIff(WordsOf(u, Spelled(u, quote)), WordsOf(u, Spelled(u, text)));
  }
}
