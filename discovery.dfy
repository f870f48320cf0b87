/** The list and string logic of the policy-URL discovery in main.py, over text that has
    already been fetched: the privacy-cue test, the order-keeping de-duplication, the
    Sitemap lines of robots.txt, the scan of a leaf sitemap's <loc> entries and the
    merging of surplus chunks. */
module Discovery {
  import opened Json
  import opened Seqs
  import opened Text

  /** `s or ""` for an optional string. */
  function OrEmpty(s: Option<string>): string
  {
    if s.Some? then s.value else ""
  }

  // ---------------------------------------------------------------- privacy cues

  const PrivacyCues: seq<string> := [
    "privacy", "privacy-policy", "privacy_notice", "privacy-notice", "gizlilik",
    "gizlilik-politik", "veri koruma", "privacidad", "politica de privacidad",
    "privacidade", "politica de privacidade", "datenschutz", "confidentialité",
    "politique de confidentialité", "informativa privacy", "informativa sulla privacy",
    "個人情報", "プライバシー", "隐私", "隱私", "개인정보", "privatsphäre"
  ]

  /** The heuristic test for privacy-related text: some cue occurs in the lower-cased
      string, an absent string counting as empty. */
  predicate IsPrivacyLike(s: Option<string>)
  {
    exists k | k in PrivacyCues :: Contains(Lower(OrEmpty(s)), k)
  }

  /** Neither an absent nor an empty string is privacy-like. */
  lemma NothingIsNotPrivacyLike()
    ensures !IsPrivacyLike(None) && !IsPrivacyLike(Some(""))
  {
    assert Lower("") == "";
    forall k | k in PrivacyCues
      ensures !Contains("", k)
    {
      EmptyContainsOnlyEmpty(k);
    }
  }

  /** The test does not see the case of the letters it lower-cases. */
  lemma PrivacyLikeIgnoresCase(s: string)
    ensures IsPrivacyLike(Some(s)) == IsPrivacyLike(Some(Lower(s)))
  {
    LowerIdempotent(s);
  }

  // ---------------------------------------------------------------- de-duplication

  /** The list with every element after its first occurrence dropped. */
  function Unique(xs: seq<string>): (u: seq<string>)
    ensures Distinct(u)
    ensures forall x :: x in u <==> x in xs
    ensures |u| <= |xs|
  {
    if xs == [] then []
    else
      var u := Unique(xs[..|xs| - 1]);
      var x := xs[|xs| - 1];
      assert xs == xs[..|xs| - 1] + [x];
      if x in u then u else u + [x]
  }

  /** Position of the first occurrence of x. */
  function FirstIndex(xs: seq<string>, x: string): (i: nat)
    requires x in xs
    ensures i < |xs| && xs[i] == x && x !in xs[..i]
  {
    if xs[0] == x then 0
    else
      var i := FirstIndex(xs[1..], x);
      assert xs[..i + 1] == [xs[0]] + xs[1..][..i];
      i + 1
  }

  /** The first occurrence is the only index before which x does not occur. */
  lemma FirstIndexUnique(xs: seq<string>, x: string, i: nat)
    requires i < |xs| && xs[i] == x && x !in xs[..i]
    ensures FirstIndex(xs, x) == i
  {
  }

  /** Appending after x leaves the first occurrence of x where it was. */
  lemma FirstIndexAppend(xs: seq<string>, y: string, x: string)
    requires x in xs
    ensures FirstIndex(xs + [y], x) == FirstIndex(xs, x)
  {
    var i := FirstIndex(xs, x);
    assert (xs + [y])[..i] == xs[..i];
    FirstIndexUnique(xs + [y], x, i);
  }

  /** The survivors appear in the order of their first occurrences in the input. */
  lemma {:induction false} UniqueKeepsFirstOrder(xs: seq<string>)
    ensures forall p, q | 0 <= p < q < |Unique(xs)| ::
      FirstIndex(xs, Unique(xs)[p]) < FirstIndex(xs, Unique(xs)[q])
  {
    if xs != [] {
      var init := xs[..|xs| - 1];
      var x := xs[|xs| - 1];
      assert xs == init + [x];
      var u := Unique(init);
      UniqueKeepsFirstOrder(init);
      forall y | y in init
        ensures FirstIndex(xs, y) == FirstIndex(init, y)
      {
        FirstIndexAppend(init, x, y);
      }
      if x !in u {
        assert init[..|init|] == init;
        FirstIndexUnique(xs, x, |init|);
      }
    }
  }

  /** Adding one element adds it at the end, unless it is already there. */
  lemma UniqueAppend(xs: seq<string>, y: string)
    ensures Unique(xs + [y]) == if y in xs then Unique(xs) else Unique(xs) + [y]
  {
    assert (xs + [y])[..|xs|] == xs;
  }

  /** A list without repetitions is its own de-duplication. */
  lemma {:induction false} UniqueOfDistinct(xs: seq<string>)
    requires Distinct(xs)
    ensures Unique(xs) == xs
  {
    if xs != [] {
      var init := xs[..|xs| - 1];
      UniqueOfDistinct(init);
      assert xs[|xs| - 1] !in init;
      assert xs == init + [xs[|xs| - 1]];
    }
  }

  /** One more element extends the de-duplicated prefix unless it was seen before. */
  lemma UniqueStep(xs: seq<string>, i: nat)
    requires i < |xs|
    ensures Unique(xs[..i + 1])
      == if xs[i] in Unique(xs[..i]) then Unique(xs[..i]) else Unique(xs[..i]) + [xs[i]]
  {
    assert xs[..i + 1][..i] == xs[..i];
  }

  /** The loop with a `seen` set that keeps the first occurrence of every element. */
  method Dedup(xs: seq<string>) returns (uniq: seq<string>)
    ensures uniq == Unique(xs)
  {
    var seen: set<string> := {};
    uniq := [];
    for i := 0 to |xs|
      invariant uniq == Unique(xs[..i])
      invariant forall x :: x in seen <==> x in uniq
    {
      UniqueStep(xs, i);
      if xs[i] !in seen {
        seen := seen + {xs[i]};
        uniq := uniq + [xs[i]];
      }
    }
    assert xs[..|xs|] == xs;
  }

  // ---------------------------------------------------------------- robots.txt

  /** A stripped line that starts with "sitemap:" in any case has its first colon at
      index 7, so the text after that colon is the rest of the line. */
  lemma DirectiveColon(line: string)
    requires StartsWith(Lower(line), "sitemap:")
    ensures ':' in line && AfterFirst(line, ':') == line[8..]
  {
    LowerKeepsNonLetters(line, 7, ':');
    assert Lower(line)[7] == ':';
    assert line[7] == ':';
    forall k | 0 <= k < 7
      ensures line[k] != ':'
    {
      assert Lower(line)[k] == "sitemap:"[k];
    }
    AfterFirstAt(line, ':', 7);
  }

  /** What one robots.txt line declares: after stripping, a line that starts with
      "sitemap:" in any case names the stripped text after its first colon, unless that
      text is empty. */
  function SitemapDirective(line: string): Option<string>
  {
    var l := Strip(line);
    if StartsWith(Lower(l), "sitemap:") then
      DirectiveColon(l);
      var sm := Strip(AfterFirst(l, ':'));
      if sm != "" then Some(sm) else None
    else None
  }

  /** A declared sitemap is a non-empty, stripped piece of its line that follows the
      "sitemap:" prefix. */
  lemma DirectiveIsPieceOfLine(line: string)
    requires SitemapDirective(line).Some?
    ensures var sm := SitemapDirective(line).value;
      sm != "" && Strip(sm) == sm && Contains(line, sm)
      && StartsWith(Lower(Strip(line)), "sitemap:") && sm == Strip(Strip(line)[8..])
  {
    var l := Strip(line);
    DirectiveColon(l);
    var sm := SitemapDirective(line).value;
    assert sm == Strip(l[8..]);
    StripIdempotent(l[8..]);
    StripIsPiece(l[8..]);
    ContainsInSuffix(l, 8, sm);
    StripIsPiece(line);
    ContainsTransitive(line, l, sm);
  }

  /** The lines of the fetched robots.txt body; a failed fetch gives none. */
  function RobotsLines(robotsTxt: Option<string>): seq<string>
  {
    if robotsTxt.Some? then SplitLines(robotsTxt.value) else []
  }

  /** The sitemaps that lines declare, in line order. */
  function Declared(lines: seq<string>): seq<string>
  {
    if lines == [] then []
    else
      var init := Declared(lines[..|lines| - 1]);
      var d := SitemapDirective(lines[|lines| - 1]);
      if d.Some? then init + [d.value] else init
  }

  /** Every declared sitemap is what some line declares. */
  lemma {:induction false} DeclaredByLines(lines: seq<string>)
    ensures forall sm | sm in Declared(lines) :: exists l | l in lines :: SitemapDirective(l) == Some(sm)
  {
    if lines != [] {
      var init := lines[..|lines| - 1];
      DeclaredByLines(init);
      assert forall l | l in init :: l in lines;
    }
  }

  function DefaultSitemap(scheme: string, netloc: string): string
  {
    scheme + "://" + netloc + "/sitemap.xml"
  }

  /** The declared sitemaps with the default one appended when it is missing. */
  function WithDefault(declared: seq<string>, default: string): seq<string>
  {
    if default in declared then declared else declared + [default]
  }

  /** One more line adds what it declares. */
  lemma DeclaredStep(lines: seq<string>, i: nat)
    requires i < |lines|
    ensures Declared(lines[..i + 1]) == Declared(lines[..i])
      + if SitemapDirective(lines[i]).Some? then [SitemapDirective(lines[i]).value] else []
  {
    assert lines[..i + 1][..i] == lines[..i];
  }

  /** _get_sitemaps_from_robots once robots.txt has been fetched (or not): the robots
      URL and its fetch are not part of this model. */
  method SitemapsFromRobots(robotsTxt: Option<string>, scheme: string, netloc: string)
    returns (uniq: seq<string>)
    ensures uniq == Unique(WithDefault(Declared(RobotsLines(robotsTxt)), DefaultSitemap(scheme, netloc)))
  {
    var out: seq<string> := [];
    if robotsTxt.Some? && robotsTxt.value != "" {
      out := DeclaredSitemaps(SplitLines(robotsTxt.value));
    }
    var defaultSm := DefaultSitemap(scheme, netloc);
    if defaultSm !in out {
      out := out + [defaultSm];
    }
    uniq := Dedup(out);
  }

  /** The loop over the lines of robots.txt that collects the declared sitemaps. */
  method DeclaredSitemaps(lines: seq<string>) returns (out: seq<string>)
    ensures out == Declared(lines)
  {
    out := [];
    for i := 0 to |lines|
      invariant out == Declared(lines[..i])
    {
      DeclaredStep(lines, i);
      var line := Strip(lines[i]);
      if StartsWith(Lower(line), "sitemap:") {
        DirectiveColon(line);
        var sm := Strip(AfterFirst(line, ':'));
        if sm != "" {
          out := out + [sm];
        }
      }
    }
    assert lines[..|lines|] == lines;
  }

  /** The result names the default sitemap exactly once, holds no duplicates, and keeps
      the declared sitemaps in their first-declared order ahead of an added default. */
  lemma SitemapsShape(declared: seq<string>, default: string)
    ensures default in Unique(WithDefault(declared, default))
    ensures Distinct(Unique(WithDefault(declared, default)))
    ensures Unique(WithDefault(declared, default))
      == Unique(declared) + (if default in declared then [] else [default])
  {
    if default !in declared {
      UniqueAppend(declared, default);
    }
  }

  // ---------------------------------------------------------------- leaf sitemap

  /** The URL a <loc> element yields: its text, or "", stripped. */
  function LocUrl(loc: Option<string>): string
  {
    Strip(OrEmpty(loc))
  }

  /** The leaf scan keeps a URL that is non-empty and privacy-like. */
  predicate Kept(u: string)
  {
    u != "" && IsPrivacyLike(Some(u))
  }

  /** The privacy-like non-empty URLs among locs, in document order. */
  function Candidates(locs: seq<Option<string>>): seq<string>
  {
    if locs == [] then []
    else
      var init := Candidates(locs[..|locs| - 1]);
      var u := LocUrl(locs[|locs| - 1]);
      if Kept(u) then init + [u] else init
  }

  /** Every candidate is a non-empty privacy-like URL. */
  lemma {:induction false} CandidatesArePrivacyLike(locs: seq<Option<string>>)
    ensures forall u | u in Candidates(locs) :: u != "" && IsPrivacyLike(Some(u))
  {
    if locs != [] {
      CandidatesArePrivacyLike(locs[..|locs| - 1]);
    }
  }

  /** One more <loc> adds its URL when the scan keeps it. */
  lemma CandidatesStep(locs: seq<Option<string>>, i: nat)
    requires i < |locs|
    ensures var u := LocUrl(locs[i]);
      Candidates(locs[..i + 1])
      == Candidates(locs[..i]) + if Kept(u) then [u] else []
  {
    assert locs[..i + 1][..i] == locs[..i];
  }

  /** The candidates of a prefix of the document start the candidates of the whole. */
  lemma {:induction false} CandidatesPrefix(locs: seq<Option<string>>, j: nat)
    requires j <= |locs|
    ensures |Candidates(locs[..j])| <= |Candidates(locs)|
    ensures Candidates(locs[..j]) == Candidates(locs)[..|Candidates(locs[..j])|]
  {
    if j < |locs| {
      var init := locs[..|locs| - 1];
      assert init[..j] == locs[..j];
      CandidatesPrefix(init, j);
    } else {
      assert locs[..j] == locs;
    }
  }

  /** The loop appends before it tests the cap, so at least one URL is kept. */
  function UrlCap(maxUrls: int): nat
  {
    if maxUrls < 1 then 1 else maxUrls
  }

  /** The scan has gathered everything once the cap is reached or the document ends. */
  lemma LeafScanStops(locs: seq<Option<string>>, j: nat, maxUrls: int)
    requires j <= |locs|
    requires |Candidates(locs[..j])| == UrlCap(maxUrls) || (j == |locs| && |Candidates(locs)| < UrlCap(maxUrls))
    ensures LeafScan(locs, maxUrls) == Candidates(locs[..j])
  {
    CandidatesPrefix(locs, j);
    assert locs[..|locs|] == locs;
  }

  /** The URLs the leaf loop gathers before de-duplication: the first candidates, up to
      the cap. */
  function LeafScan(locs: seq<Option<string>>, maxUrls: int): seq<string>
  {
    var urls := Candidates(locs);
    urls[..Min(|urls|, UrlCap(maxUrls))]
  }

  /** The <urlset> branch of _fetch_sitemap_urls over the <loc> texts of an already
      parsed sitemap, in document order: the scan, then the de-duplication. */
  method LeafSitemapUrls(locs: seq<Option<string>>, maxUrls: int) returns (uniq: seq<string>)
    ensures uniq == Unique(LeafScan(locs, maxUrls))
  {
    var urls := ScanLocs(locs, maxUrls);
    uniq := Dedup(urls);
  }

  /** The scan loop: keep each stripped, non-empty, privacy-like <loc> text and stop
      right after an append that brings the list to maxUrls. */
  method ScanLocs(locs: seq<Option<string>>, maxUrls: int) returns (urls: seq<string>)
    ensures urls == LeafScan(locs, maxUrls)
  {
    urls := [];
    var i := 0;
    while i < |locs|
      invariant 0 <= i <= |locs|
      invariant urls == Candidates(locs[..i])
      invariant |urls| < UrlCap(maxUrls)
    {
      CandidatesStep(locs, i);
      var u := LocUrl(locs[i]);
      if Kept(u) {
        urls := urls + [u];
        if |urls| >= maxUrls {
          LeafScanStops(locs, i + 1, maxUrls);
          return;
        }
      }
      i := i + 1;
    }
    assert locs[..i] == locs;
    LeafScanStops(locs, i, maxUrls);
  }

  /** The leaf scan keeps at most the cap of URLs (max_urls, or one when max_urls is
      below one), each non-empty and privacy-like, without duplicates and in document
      order. */
  lemma LeafScanProperties(locs: seq<Option<string>>, maxUrls: int)
    ensures |Unique(LeafScan(locs, maxUrls))| <= UrlCap(maxUrls)
    ensures forall u | u in Unique(LeafScan(locs, maxUrls)) :: u != "" && IsPrivacyLike(Some(u))
    ensures Distinct(Unique(LeafScan(locs, maxUrls)))
    ensures LeafScan(locs, maxUrls) == Candidates(locs)[..|LeafScan(locs, maxUrls)|]
  {
    var urls := Candidates(locs);
    CandidatesArePrivacyLike(locs);
    assert forall u | u in LeafScan(locs, maxUrls) :: u in urls;
  }
}
