/**
 The deterministic check between the model's draft copy and any person
 (edlo/services/policy.py).
 */
module Policy {
  import opened Wrappers
  import opened Text
  import opened Words
  import opened Transcripts
  import opened Quotes

  datatype Violation =
    | InventedLink(url: string)
    | UnverifiedSponsor(name: string)
    | ChaptersNotMonotonic

  const ALLOWED_LINK_DOMAINS: seq<string> := ["sozzledpod.com", "youtube.com", "spotify.com"]

  function WithoutWww(host: string): string { if "www." <= host then host[4..] else host }

  predicate Allowed(host: string) {
    exists d :: d in ALLOWED_LINK_DOMAINS && (host == d || EndsWith(host, "." + d))
  }

  // ---- sorting the chapter starts

  function InsertedInt(x: int, s: seq<int>): seq<int> {
    if s == [] || x <= s[0] then [x] + s else [s[0]] + InsertedInt(x, s[1..])
  }

  function SortedInts(s: seq<int>): seq<int> {
    if s == [] then [] else InsertedInt(s[0], SortedInts(s[1..]))
  }

  ghost predicate Ascending(s: seq<int>) { forall i, j :: 0 <= i < j < |s| ==> s[i] <= s[j] }

  lemma {:induction false} InsertedIntRight(x: int, s: seq<int>)
    requires Ascending(s)
    ensures Ascending(InsertedInt(x, s))
    ensures forall y :: y in InsertedInt(x, s) ==> y == x || y in s
  {
    if s != [] && x > s[0] {
      InsertedIntRight(x, s[1..]);
      var r := InsertedInt(x, s[1..]);
      forall i | 0 <= i < |r| ensures s[0] <= r[i] {
        assert r[i] in r;
      }
    }
  }

  lemma {:induction false} SortedIntsAscend(s: seq<int>)
    ensures Ascending(SortedInts(s))
  {
    if s != [] {
      SortedIntsAscend(s[1..]);
      InsertedIntRight(s[0], SortedInts(s[1..]));
    }
  }

  /** Comparing with the sorted list is asking whether the list ascends. */
  lemma {:induction false} EqualsSortedIff(s: seq<int>)
    ensures s == SortedInts(s) <==> Ascending(s)
  {
    SortedIntsAscend(s);
    if Ascending(s) && s != [] {
      assert Ascending(s[1..]) by {
        assert forall i :: 0 <= i < |s[1..]| ==> s[1..][i] == s[i + 1];
      }
      EqualsSortedIff(s[1..]);
      assert |s| > 1 ==> s[1..][0] == s[1];
    }
  }

  // ---- the check

  function OfLink(hostOf: string -> string, l: string): seq<Violation> {
    if Allowed(WithoutWww(hostOf(l))) then [] else [InventedLink(l)]
  }

  function OfSponsor(u: Unicode, full: string, name: string): seq<Violation> {
    if IsInfix(Normalize(u, name), full) then [] else [UnverifiedSponsor(name)]
  }

  function LinkViolations(hostOf: string -> string, links: seq<string>): seq<Violation> {
    if links == [] then [] else OfLink(hostOf, links[0]) + LinkViolations(hostOf, links[1..])
  }

  function SponsorViolations(u: Unicode, full: string, sponsors: seq<string>): seq<Violation> {
    if sponsors == [] then [] else OfSponsor(u, full, sponsors[0]) + SponsorViolations(u, full, sponsors[1..])
  }

  function Violations(u: Unicode, hostOf: string -> string, links: seq<string>, sponsors: seq<string>,
                      starts: seq<int>, transcriptText: string): seq<Violation> {
    LinkViolations(hostOf, links)
    + SponsorViolations(u, Normalize(u, transcriptText), sponsors)
    + if starts != SortedInts(starts) then [ChaptersNotMonotonic] else []
  }

  lemma {:induction false} LinksAppend(hostOf: string -> string, links: seq<string>, l: string)
    ensures LinkViolations(hostOf, links + [l]) == LinkViolations(hostOf, links) + OfLink(hostOf, l)
  {
    hide OfLink;
    if links == [] {
      assert (links + [l])[1..] == [];
    } else {
      assert (links + [l])[1..] == links[1..] + [l];
      LinksAppend(hostOf, links[1..], l);
      Assoc(OfLink(hostOf, links[0]), LinkViolations(hostOf, links[1..]), OfLink(hostOf, l));
    }
  }

  lemma {:induction false} SponsorsAppend(u: Unicode, full: string, sponsors: seq<string>, name: string)
    ensures SponsorViolations(u, full, sponsors + [name]) == SponsorViolations(u, full, sponsors) + OfSponsor(u, full, name)
  {
    hide OfSponsor;
    if sponsors == [] {
      assert (sponsors + [name])[1..] == [];
    } else {
      assert (sponsors + [name])[1..] == sponsors[1..] + [name];
      SponsorsAppend(u, full, sponsors[1..], name);
      Assoc(OfSponsor(u, full, sponsors[0]), SponsorViolations(u, full, sponsors[1..]), OfSponsor(u, full, name));
    }
  }

  /** `hostOf` is the lower-cased network location of a URL. */
  method CheckPack(u: Unicode, hostOf: string -> string, links: seq<string>, sponsors: seq<string>,
                   starts: seq<int>, transcriptText: string) returns (v: seq<Violation>)
    ensures v == Violations(u, hostOf, links, sponsors, starts, transcriptText)
  {
    hide Normalize, IsInfix, Allowed, SortedInts;
    v := [];
    var i := 0;
    while i < |links|
      invariant i <= |links| && v == LinkViolations(hostOf, links[..i])
    {
      assert links[..i + 1] == links[..i] + [links[i]];
      LinksAppend(hostOf, links[..i], links[i]);
      var host := WithoutWww(hostOf(links[i]));
      if !Allowed(host) {
        v := v + [InventedLink(links[i])];
      }
      i := i + 1;
    }
    assert links[..i] == links;
    ghost var before := v;
    var full := Normalize(u, transcriptText);
    i := 0;
    while i < |sponsors|
      invariant i <= |sponsors| && v == before + SponsorViolations(u, full, sponsors[..i])
    {
      assert sponsors[..i + 1] == sponsors[..i] + [sponsors[i]];
      SponsorsAppend(u, full, sponsors[..i], sponsors[i]);
      if !IsInfix(Normalize(u, sponsors[i]), full) {
        v := v + [UnverifiedSponsor(sponsors[i])];
      }
      i := i + 1;
    }
    assert sponsors[..i] == sponsors;
    if starts != SortedInts(starts) {
      v := v + [ChaptersNotMonotonic];
    }
  }

  // ---- what it catches

  /** The host is the domain, or lies under it. */
  predicate Under(host: string, domain: string) {
    || host == domain
    || (|host| > |domain| && host[|host| - |domain|..] == domain && host[|host| - |domain| - 1] == '.')
  }

  predicate Ours(host: string) { Under(host, "sozzledpod.com") || Under(host, "youtube.com") || Under(host, "spotify.com") }

  lemma UnderIff(host: string, domain: string)
    ensures Under(host, domain) <==> host == domain || EndsWith(host, "." + domain)
  {
    var n := |host| - |domain|;
    if n > 0 {
      assert host[n - 1..] == [host[n - 1]] + host[n..];
      assert ("." + domain)[1..] == domain;
    }
  }

  /** Leaving out `www.` makes no difference: what is left is under a domain without a `www.` of
      its own exactly when the whole is. */
  lemma WwwMakesNoDifference(host: string, domain: string)
    requires !("www." <= domain) && domain != ""
    ensures Under(WithoutWww(host), domain) <==> Under(host, domain)
  {
    if "www." <= host {
      var rest := host[4..];
      var n := |host| - |domain|;
      assert host == "www." + rest;
      if n >= 4 {
        assert rest[n - 4..] == host[n..];
      }
      assert host[0] == 'w' && host[1] == 'w' && host[2] == 'w' && host[3] == '.';
    }
  }

  /** The links that pass: those to one of the three domains or a host under it. */
  lemma AllowedIffOurs(host: string)
    ensures Allowed(WithoutWww(host)) <==> Ours(host)
  {
    var rest := WithoutWww(host);
    var a, b, c := "sozzledpod.com", "youtube.com", "spotify.com";
    assert a[0] == 's' && b[0] == 'y' && c[0] == 's' && "www."[0] == 'w';
    WwwMakesNoDifference(host, a);
    WwwMakesNoDifference(host, b);
    WwwMakesNoDifference(host, c);
    UnderIff(rest, a);
    UnderIff(rest, b);
    UnderIff(rest, c);
    hide WithoutWww, Under, EndsWith;
    assert a in ALLOWED_LINK_DOMAINS && b in ALLOWED_LINK_DOMAINS && c in ALLOWED_LINK_DOMAINS;
    assert forall d :: d in ALLOWED_LINK_DOMAINS ==> d == a || d == b || d == c;
  }

  lemma {:induction false} LinkMembers(hostOf: string -> string, links: seq<string>, v: Violation)
    ensures v in LinkViolations(hostOf, links) <==>
      v.InventedLink? && v.url in links && !Allowed(WithoutWww(hostOf(v.url)))
  {
    hide Allowed;
    if links != [] {
      LinkMembers(hostOf, links[1..], v);
      assert links == [links[0]] + links[1..];
    }
  }

  lemma {:induction false} SponsorMembers(u: Unicode, full: string, sponsors: seq<string>, v: Violation)
    ensures v in SponsorViolations(u, full, sponsors) <==>
      v.UnverifiedSponsor? && v.name in sponsors && !IsInfix(Normalize(u, v.name), full)
  {
    hide Normalize, IsInfix;
    if sponsors != [] {
      SponsorMembers(u, full, sponsors[1..], v);
      assert sponsors == [sponsors[0]] + sponsors[1..];
    }
  }

  /** A violation is reported exactly when there is one: a link to a host that is neither an
      allowed domain nor under one, a sponsor whose normal form is not in the transcript's,
      chapters out of order. */
  lemma ReportedIffViolated(u: Unicode, hostOf: string -> string, links: seq<string>, sponsors: seq<string>,
                            starts: seq<int>, text: string, v: Violation)
    ensures v in Violations(u, hostOf, links, sponsors, starts, text) <==>
      match v
      case InventedLink(url) => url in links && !Ours(hostOf(url))
      case UnverifiedSponsor(name) => name in sponsors && !IsInfix(Normalize(u, name), Normalize(u, text))
      case ChaptersNotMonotonic => !Ascending(starts)
  {
    hide Normalize, IsInfix, Allowed, Ours, WithoutWww;
    LinkMembers(hostOf, links, v);
    if v.InventedLink? {
      AllowedIffOurs(hostOf(v.url));
    }
    SponsorMembers(u, Normalize(u, text), sponsors, v);
    EqualsSortedIff(starts);
  }

  /** A sponsor is reported exactly when its words are not said anywhere, one after another. */
  lemma UnverifiedIffNotSaid(u: Unicode, hostOf: string -> string, links: seq<string>, sponsors: seq<string>,
                             starts: seq<int>, segs: seq<Segment>, name: string)
    requires Sane(u) && SpaceIsPlain(u)
    ensures UnverifiedSponsor(name) in Violations(u, hostOf, links, sponsors, starts, Spoken(segs)) <==>
              name in sponsors && !Said(u, name, segs)
  {
    hide Normalize, IsInfix, Spoken, Spelled, WordsOf, WordsIn;
    ReportedIffViolated(u, hostOf, links, sponsors, starts, Spoken(segs), UnverifiedSponsor(name));
    FoundIff(u, name, Spoken(segs));
    SpokenWords(u, segs);
  }

  /** A sponsor named verbatim anywhere in the transcript, across segments or within one,
      is never flagged. */
  lemma SpokenSponsorNeverFlagged(u: Unicode, hostOf: string -> string, links: seq<string>, sponsors: seq<string>,
                                  starts: seq<int>, t: Transcript, i: nat, j: nat, name: string)
    requires Sane(u) && i <= j <= |t.segments| && IsInfix(name, Spoken(t.segments[i..j]))
    ensures UnverifiedSponsor(name) !in Violations(u, hostOf, links, sponsors, starts, Spoken(t.segments))
  {
    hide Normalize, IsInfix;
    assert t.segments[0..|t.segments|] == t.segments;
    SpokenSlice(t.segments, i, j, 0, |t.segments|);
    InfixTransitive(name, Spoken(t.segments[i..j]), Spoken(t.segments));
    NormalizeMonotone(u, name, Spoken(t.segments));
    ReportedIffViolated(u, hostOf, links, sponsors, starts, Spoken(t.segments), UnverifiedSponsor(name));
  }
}
