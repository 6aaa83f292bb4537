/**
 * Text utilities for crawled pages: the site of a URL, markdown link extraction, removal of
 * link-heavy lines, and removal of lines repeated across pages.
 */
module WebUtils {
  import opened Wrappers
  import opened PyStr

  // ---------------------------------------------------------------------------------------
  // url_to_site

  /** Every `https://`, then every `http://`, removed (anywhere in the URL). */
  function StripSchemes(url: string): string {
    ReplaceAll(ReplaceAll(url, "https://", ""), "http://", "")
  }

  /** The dot-separated labels of the host part of a URL. */
  function HostLabels(url: string): (r: seq<string>)
    ensures |r| >= 1
  {
    Split(Split(StripSchemes(url), '/')[0], '.')
  }

  const TopLevelDomains: set<string> := {
    "com", "org", "net", "edu", "gov", "mil", "int", "vip", "app", "me", "tv", "co", "io", "ai", "cc", "info",
    "biz", "name", "pro", "top", "xyz", "site", "online", "store",
    "cn", "us", "jp", "uk", "au", "de", "fr", "ru", "it", "es", "br", "in", "ca", "kr", "mx", "nl", "se", "no",
    "fi", "dk", "pl", "tr", "hu", "cz", "ro", "gr", "pt", "il", "ae",
    "sa", "hk", "tw", "sg", "my", "th", "ph", "vn", "id", "pk", "bd", "lk", "np", "kh", "la", "mm", "mn"}

  /**
   * The labels the loop collects from the reversed host labels, starting at position `i`:
   * a top-level domain at position 0 or 1 is taken and the walk goes on; any other label
   * (and any label at position 2) is taken and ends the walk.
   */
  function SiteParts(rl: seq<string>, i: nat): (r: seq<string>)
    requires i <= |rl|
    ensures |r| <= |rl| - i && r == rl[i..i + |r|]
    decreases |rl| - i
  {
    if i == |rl| then []
    else if rl[i] in TopLevelDomains && i < 2 then [rl[i]] + SiteParts(rl, i + 1)
    else [rl[i]]
  }

  function UrlToSiteSpec(url: string): string {
    Join(Reverse(SiteParts(Reverse(HostLabels(url)), 0)), ".")
  }

  /** Reversing, cutting the first `k`, and reversing back leaves the last `k`. */
  lemma ReverseSlice(s: seq<string>, k: nat)
    requires k <= |s|
    ensures Reverse(Reverse(s)[..k]) == s[|s| - k..]
  {
    MirrorOfMirror(s, Reverse(s), Reverse(Reverse(s)[..k]), k);
  }

  /** `rr` mirrors the first `k` of `rs`, which mirrors `s`: `rr` is the last `k` of `s`. */
  lemma MirrorOfMirror(s: seq<string>, rs: seq<string>, rr: seq<string>, k: nat)
    requires |rs| == |s| && forall i :: 0 <= i < |s| ==> rs[i] == s[|s| - 1 - i]
    requires |rr| == k <= |s| && forall i :: 0 <= i < k ==> rr[i] == rs[..k][k - 1 - i]
    ensures rr == s[|s| - k..]
  {
    forall i | 0 <= i < k
      ensures rr[i] == s[|s| - k + i]
    {
      assert rr[i] == rs[k - 1 - i];
    }
  }

  /** How many host labels the site keeps. */
  function SiteLabelCount(url: string): nat {
    |SiteParts(Reverse(HostLabels(url)), 0)|
  }

  /**
   * `url_to_site`: the last one to three host labels. All labels of the site but its first are
   * top-level domains, and the site stops at the first (from the right) label that is not one,
   * taking at most two top-level domains.
   */
  lemma UrlToSiteIsSuffix(url: string)
    ensures var labels := HostLabels(url); var k := SiteLabelCount(url);
      1 <= k <= 3 && k <= |labels|
      && UrlToSiteSpec(url) == Join(labels[|labels| - k..], ".")
      && (forall j :: |labels| - k < j < |labels| ==> labels[j] in TopLevelDomains)
      && (k < 3 && k < |labels| ==> labels[|labels| - k] !in TopLevelDomains)
  {
    SiteOfLabels(HostLabels(url));
  }

  /** `UrlToSiteIsSuffix` for any sequence of host labels (there is always at least one). */
  lemma SiteOfLabels(labels: seq<string>)
    requires |labels| >= 1
    ensures var k := |SiteParts(Reverse(labels), 0)|;
      1 <= k <= 3 && k <= |labels|
      && Reverse(SiteParts(Reverse(labels), 0)) == labels[|labels| - k..]
      && (forall j :: |labels| - k < j < |labels| ==> labels[j] in TopLevelDomains)
      && (k < 3 && k < |labels| ==> labels[|labels| - k] !in TopLevelDomains)
  {
    var rl := Reverse(labels);
    var r := SiteParts(rl, 0);
    SitePartsBounds(rl, 0);
    var k := |r|;
    ReverseSlice(labels, k);
    assert r == rl[..k];
    forall j | |labels| - k < j < |labels|
      ensures labels[j] in TopLevelDomains
    {
      assert labels[j] == rl[|labels| - 1 - j];
    }
  }

  /** The shape of the collected labels: every label but the last is a top-level domain, and the walk stops early only at a label that is not one. */
  lemma {:induction false} SitePartsBounds(rl: seq<string>, i: nat)
    requires i <= |rl| && i <= 2
    ensures var r := SiteParts(rl, i);
      (i < |rl| ==> |r| >= 1)
      && i + |r| <= 3
      && (forall j :: i <= j < i + |r| - 1 ==> rl[j] in TopLevelDomains)
      && (|r| >= 1 && i + |r| < 3 && i + |r| < |rl| ==> rl[i + |r| - 1] !in TopLevelDomains)
    decreases |rl| - i
  {
    if i < |rl| && rl[i] in TopLevelDomains && i < 2 {
      SitePartsBounds(rl, i + 1);
    }
  }

  /** `url_to_site`, with the loop over the reversed labels and its `break`. */
  method UrlToSite(url: string) returns (site: string)
    ensures site == UrlToSiteSpec(url)
  {
    var rl := Reverse(HostLabels(url));
    var parts: seq<string> := [];
    var i := 0;
    while i < |rl|
      invariant 0 <= i <= |rl|
      invariant SiteParts(rl, 0) == parts + SiteParts(rl, i)
    {
      if rl[i] in TopLevelDomains && i < 2 {
        parts := parts + [rl[i]];
        i := i + 1;
      } else {
        parts := parts + [rl[i]];
        break;
      }
    }
    site := Join(Reverse(parts), ".");
  }

  // ---------------------------------------------------------------------------------------
  // extract_links_from_markdown

  /** A markdown link `[text](target)` found at `s[start..end]`. */
  datatype Link = Link(start: nat, end: nat, text: string)

  /** The scanner's variables: bracket levels, the open link's start and text, and the links so far. */
  datatype LinkScan = LinkScan(sb: nat, rb: nat, start: Option<nat>, text: Option<string>, links: seq<Link>)

  /** `text` is what lies between `s[start]` and a later `]` before position `bound`. */
  ghost predicate TextOf(s: string, start: nat, text: string, bound: nat) {
    exists k :: start < k < bound && k < |s| && s[k] == ']' && text == s[start + 1..k]
  }

  ghost predicate LinkOk(s: string, l: Link) {
    l.start < l.end <= |s| && s[l.start] == '[' && s[l.end - 1] == ')' && TextOf(s, l.start, l.text, l.end - 1)
  }

  /** Every link is well formed and each starts at or after the end of the one before. */
  ghost predicate LinksOk(s: string, links: seq<Link>) {
    (forall i :: 0 <= i < |links| ==> LinkOk(s, links[i]))
    && (forall i :: 0 <= i < |links| - 1 ==> links[i].end <= links[i + 1].start)
  }

  /** The bookkeeping the scanner relies on after reading `s[..p]`: an open round bracket has a link start, a closed square bracket has a text. */
  predicate Tracking(st: LinkScan, p: nat) {
    st.rb <= 1
    && (st.rb == 1 ==> st.start.Some?)
    && (st.sb == 0 && st.start.Some? ==> st.text.Some?)
    && (st.start.Some? ==> st.start.value < p)
  }

  /** What the scanner's state says about `s[..p]`. */
  ghost predicate ScanOk(s: string, st: LinkScan, p: nat) {
    p <= |s| && Tracking(st, p)
    && (st.start.Some? ==> s[st.start.value] == '[')
    && (st.sb == 0 && st.start.Some? ==> TextOf(s, st.start.value, st.text.value, p))
    && LinksOk(s, st.links)
    && (|st.links| > 0 ==> st.links[|st.links| - 1].end <= p)
    && (|st.links| > 0 && st.start.Some? ==> st.links[|st.links| - 1].end <= st.start.value)
  }

  /** One character of the scan. */
  function LinkStep(s: string, st: LinkScan, p: nat): (r: LinkScan)
    requires p < |s| && Tracking(st, p)
    ensures Tracking(r, p + 1)
  {
    var c := s[p];
    if c == '[' then
      var sb := st.sb + 1;
      st.(sb := sb, start := if sb == 1 then Some(p) else st.start)
    else if c == ']' then
      var sb := if st.sb == 0 then 0 else st.sb - 1;
      st.(sb := sb, text := if sb == 0 && st.start.Some? then Some(s[st.start.value + 1..p]) else st.text)
    else if c == '(' && st.sb == 0 && st.rb == 0 && st.start.Some? then
      st.(rb := st.rb + 1)
    else if c == ')' && st.sb == 0 && st.rb == 1 then
      LinkScan(st.sb, 0, None, None, st.links + [Link(st.start.value, p + 1, st.text.value)])
    else st
  }

  lemma LinkStepOk(s: string, st: LinkScan, p: nat)
    requires p < |s| && ScanOk(s, st, p)
    ensures ScanOk(s, LinkStep(s, st, p), p + 1)
  {
    var c := s[p];
    if c == ')' && st.sb == 0 && st.rb == 1 {
      LinkStepCloses(s, st, p);
    } else {
      LinkStepKeeps(s, st, p);
    }
  }

  /** A `)` that closes a link appends it to the links found. */
  lemma LinkStepCloses(s: string, st: LinkScan, p: nat)
    requires p < |s| && ScanOk(s, st, p) && s[p] == ')' && st.sb == 0 && st.rb == 1
    ensures ScanOk(s, LinkStep(s, st, p), p + 1)
  {
    var l := Link(st.start.value, p + 1, st.text.value);
    assert LinkOk(s, l);
    LinksOkAppend(s, st.links, l);
    assert LinkStep(s, st, p) == LinkScan(0, 0, None, None, st.links + [l]);
  }

  /** Every other character leaves the links found as they are. */
  lemma LinkStepKeeps(s: string, st: LinkScan, p: nat)
    requires p < |s| && ScanOk(s, st, p) && !(s[p] == ')' && st.sb == 0 && st.rb == 1)
    ensures ScanOk(s, LinkStep(s, st, p), p + 1)
  {
    var r := LinkStep(s, st, p);
    var c := s[p];
    assert r.links == st.links;
    if c == '[' {
    } else if c == ']' {
      assert r.start == st.start;
      if r.sb == 0 && r.start.Some? {
        assert TextOf(s, r.start.value, r.text.value, p + 1);
      }
    } else {
      assert r.start == st.start && r.text == st.text && r.sb == st.sb;
      if r.sb == 0 && r.start.Some? {
        TextOfWider(s, r.start.value, r.text.value, p, p + 1);
      }
    }
  }

  /** A well-formed link that starts after the last one can be appended. */
  lemma LinksOkAppend(s: string, links: seq<Link>, l: Link)
    requires LinksOk(s, links) && LinkOk(s, l) && (|links| > 0 ==> links[|links| - 1].end <= l.start)
    ensures LinksOk(s, links + [l])
  {
    var r := links + [l];
    forall i | 0 <= i < |r|
      ensures LinkOk(s, r[i])
    {
      if i < |links| {
        assert r[i] == links[i];
      }
    }
    forall i | 0 <= i < |r| - 1
      ensures r[i].end <= r[i + 1].start
    {
      if i + 1 < |links| {
        assert r[i] == links[i] && r[i + 1] == links[i + 1];
      }
    }
  }

  lemma TextOfWider(s: string, start: nat, text: string, b1: nat, b2: nat)
    requires TextOf(s, start, text, b1) && b1 <= b2
    ensures TextOf(s, start, text, b2)
  {
  }

  /** The scanner's state after reading `s[..k]`. */
  function ScanUpTo(s: string, k: nat): (r: LinkScan)
    requires k <= |s|
    ensures Tracking(r, k)
  {
    if k == 0 then LinkScan(0, 0, None, None, []) else LinkStep(s, ScanUpTo(s, k - 1), k - 1)
  }

  lemma {:induction false} ScanUpToOk(s: string, k: nat)
    requires k <= |s|
    ensures ScanOk(s, ScanUpTo(s, k), k)
  {
    if k > 0 {
      ScanUpToOk(s, k - 1);
      LinkStepOk(s, ScanUpTo(s, k - 1), k - 1);
    }
  }

  /**
   * The links of `s`: each spans `[`..`)`, its text is what lies between the `[` and a later `]`
   * inside the span, and the links are in order without overlapping.
   */
  function Links(s: string): (r: seq<Link>)
    ensures LinksOk(s, r)
  {
    ScanUpToOk(s, |s|);
    ScanUpTo(s, |s|).links
  }

  /** `extract_links_from_markdown`: the character loop over `s`. */
  method ExtractLinks(s: string) returns (links: seq<Link>)
    ensures links == Links(s)
  {
    var sb: nat, rb: nat := 0, 0;
    var start: Option<nat> := None;
    var text: Option<string> := None;
    links := [];
    var p := 0;
    while p < |s|
      invariant 0 <= p <= |s|
      invariant LinkScan(sb, rb, start, text, links) == ScanUpTo(s, p)
    {
      var c := s[p];
      if c == '[' {
        sb := sb + 1;
        if sb == 1 {
          start := Some(p);
        }
      } else if c == ']' {
        sb := if sb == 0 then 0 else sb - 1;
        if sb == 0 && start.Some? {
          text := Some(s[start.value + 1..p]);
        }
      } else if c == '(' && sb == 0 && rb == 0 && start.Some? {
        rb := rb + 1;
      } else if c == ')' && sb == 0 && rb == 1 {
        links := links + [Link(start.value, p + 1, text.value)];
        start := None;
        text := None;
        rb := 0;
      }
      p := p + 1;
    }
  }

  // ---------------------------------------------------------------------------------------
  // strip_boilerplate

  /** The total number of characters the links span. */
  function LinkLength(links: seq<Link>): int {
    if |links| == 0 then 0 else (links[0].end - links[0].start) + LinkLength(links[1..])
  }

  function TextLength(links: seq<Link>): int {
    if |links| == 0 then 0 else |links[0].text| + TextLength(links[1..])
  }

  lemma LinksOkSuffix(s: string, links: seq<Link>, i: nat)
    requires LinksOk(s, links) && i <= |links|
    ensures LinksOk(s, links[i..])
  {
    assert forall j :: 0 <= j < |links| - i ==> links[i..][j] == links[i + j];
  }

  /** A link's text is at least three characters shorter than its span (`[`, `](` and `)`). */
  lemma LinkTextShorter(s: string, l: Link)
    requires LinkOk(s, l)
    ensures |l.text| <= l.end - l.start - 3
  {
    var k :| l.start < k < l.end - 1 && k < |s| && s[k] == ']' && l.text == s[l.start + 1..k];
  }

  /** `l[p:]` with every remaining link replaced by its text. */
  function RebuildFrom(l: string, links: seq<Link>, p: nat): (r: string)
    requires LinksOk(l, links) && p <= |l|
    requires |links| > 0 ==> p <= links[0].start
    decreases |links|
  {
    if |links| == 0 then l[p..]
    else
      LinksOkSuffix(l, links, 1);
      l[p..links[0].start] + links[0].text + RebuildFrom(l, links[1..], links[0].end)
  }

  /** Replacing a link by its text shortens the line by the span and lengthens it by the text. */
  lemma {:induction false} RebuildLength(l: string, links: seq<Link>, p: nat)
    requires LinksOk(l, links) && p <= |l|
    requires |links| > 0 ==> p <= links[0].start
    ensures |RebuildFrom(l, links, p)| == |l| - p - LinkLength(links) + TextLength(links)
    ensures |RebuildFrom(l, links, p)| <= |l| - p - 3 * |links|
    decreases |links|
  {
    if |links| > 0 {
      LinksOkSuffix(l, links, 1);
      LinkTextShorter(l, links[0]);
      RebuildLength(l, links[1..], links[0].end);
    }
  }

  /** A line once stripped: None when its links cover more than nine tenths of it. */
  function StripLine(l: string): (r: Option<string>)
    ensures r.None? <==> 10 * LinkLength(Links(l)) > 9 * |l|
    ensures Links(l) == [] ==> r == Some(l)
    ensures r.Some? ==> |r.value| == |l| - LinkLength(Links(l)) + TextLength(Links(l))
    ensures r.Some? ==> |r.value| <= |l| - 3 * |Links(l)|
  {
    var links := Links(l);
    RebuildLength(l, links, 0);
    if 10 * LinkLength(links) > 9 * |l| then None else Some(RebuildFrom(l, links, 0))
  }

  /** The stripped forms of the first `k` lines that survive, in order. */
  function KeptUpTo(lines: seq<string>, k: nat): (r: seq<string>)
    requires k <= |lines|
    ensures |r| <= k
  {
    if k == 0 then []
    else
      var head := KeptUpTo(lines, k - 1);
      match StripLine(lines[k - 1])
      case None => head
      case Some(l2) => head + [l2]
  }

  function StripBoilerplateSpec(contents: string): string {
    var lines := Split(contents, '\n');
    Join(KeptUpTo(lines, |lines|), "\n")
  }

  /** Text without links comes through unchanged. */
  lemma {:induction false} KeptLinkFree(lines: seq<string>, k: nat)
    requires k <= |lines|
    requires forall i :: 0 <= i < |lines| ==> Links(lines[i]) == []
    ensures KeptUpTo(lines, k) == lines[..k]
  {
    if k > 0 {
      KeptLinkFree(lines, k - 1);
      assert lines[..k] == lines[..k - 1] + [lines[k - 1]];
    }
  }

  /** One step of the rebuilding: the text before the first link, its text, then the rest from its end. */
  lemma RebuildStep(l: string, links: seq<Link>, p: nat)
    requires LinksOk(l, links) && |links| > 0 && p <= links[0].start
    ensures links[0].start < links[0].end <= |l| && LinksOk(l, links[1..])
    ensures |links| > 1 ==> links[0].end <= links[1].start
    ensures RebuildFrom(l, links, p) == l[p..links[0].start] + links[0].text + RebuildFrom(l, links[1..], links[0].end)
  {
    LinksOkSuffix(l, links, 1);
    assert LinkOk(l, links[0]);
  }

  /** The inner loop of `strip_boilerplate`: each link replaced by its text. */
  method RebuildLine(l: string, links: seq<Link>) returns (l2: string)
    requires LinksOk(l, links)
    ensures l2 == RebuildFrom(l, links, 0)
  {
    l2 := "";
    var p := 0;
    var rest := links;
    while |rest| > 0
      invariant 0 <= p <= |l| && LinksOk(l, rest)
      invariant |rest| > 0 ==> p <= rest[0].start
      invariant l2 + RebuildFrom(l, rest, p) == RebuildFrom(l, links, 0)
      decreases |rest|
    {
      var lk := rest[0];
      RebuildStep(l, rest, p);
      l2 := l2 + l[p..lk.start];
      l2 := l2 + lk.text;
      p := lk.end;
      rest := rest[1..];
    }
    l2 := l2 + l[p..];
  }

  /** `strip_boilerplate`: the loop over the lines of `contents`. */
  method StripBoilerplate(contents: string) returns (r: string)
    ensures r == StripBoilerplateSpec(contents)
  {
    var lines := Split(contents, '\n');
    var outputs: seq<string> := [];
    var i := 0;
    while i < |lines|
      invariant 0 <= i <= |lines|
      invariant outputs == KeptUpTo(lines, i)
    {
      var l := lines[i];
      var links := ExtractLinks(l);
      if 10 * LinkLength(links) > 9 * |l| {
        i := i + 1;
        continue;
      }
      var l2 := RebuildLine(l, links);
      outputs := outputs + [l2];
      i := i + 1;
    }
    r := Join(outputs, "\n");
  }

  // ---------------------------------------------------------------------------------------
  // remove_duplicated_lines

  /** A whitespace-only line becomes the empty line; any other line is kept as it is. */
  function NormLine(line: string): (r: string)
    ensures r == "" || r == line
  {
    if Strip(line) == "" then "" else line
  }

  /** A line is emptied exactly when it is made of whitespace only. */
  lemma NormLineBlank(line: string)
    ensures NormLine(line) == "" <==> forall i :: 0 <= i < |line| ==> IsSpace(line[i])
  {
    StripBlank(line);
  }

  function Normalize(lines: seq<string>): (r: seq<string>)
    ensures |r| == |lines| && forall i :: 0 <= i < |lines| ==> r[i] == NormLine(lines[i])
  {
    if |lines| == 0 then [] else Normalize(lines[..|lines| - 1]) + [NormLine(lines[|lines| - 1])]
  }

  predicate Whitelisted(line: string, prefixes: seq<string>) {
    exists j :: 0 <= j < |prefixes| && StartsWith(line, prefixes[j])
  }

  /** A line removed as boilerplate: non-empty, seen at least `threshold` times, and not whitelisted. */
  predicate IsBoiler(lines: seq<string>, x: string, threshold: int, prefixes: seq<string>) {
    x != "" && multiset(lines)[x] >= threshold && !Whitelisted(x, prefixes)
  }

  /** The first `k` lines without the boilerplate ones. */
  function DedupUpTo(lines: seq<string>, k: nat, threshold: int, prefixes: seq<string>): (r: seq<string>)
    requires k <= |lines|
    ensures |r| <= k
  {
    if k == 0 then []
    else
      var head := DedupUpTo(lines, k - 1, threshold, prefixes);
      if IsBoiler(lines, lines[k - 1], threshold, prefixes) then head else head + [lines[k - 1]]
  }

  function Dedup(lines: seq<string>, threshold: int, prefixes: seq<string>): seq<string> {
    DedupUpTo(lines, |lines|, threshold, prefixes)
  }

  /** A line survives deduplication if and only if it occurs and is not boilerplate. */
  lemma {:induction false} DedupMembers(lines: seq<string>, k: nat, threshold: int, prefixes: seq<string>, x: string)
    requires k <= |lines|
    ensures x in DedupUpTo(lines, k, threshold, prefixes) <==> x in lines[..k] && !IsBoiler(lines, x, threshold, prefixes)
  {
    if k > 0 {
      DedupMembers(lines, k - 1, threshold, prefixes, x);
      assert lines[..k] == lines[..k - 1] + [lines[k - 1]];
    }
  }

  /** How many empty lines immediately precede position `j`. */
  function RunBefore(ls: seq<string>, j: nat): (r: nat)
    requires j <= |ls|
    ensures r <= j
  {
    if j == 0 then 0 else if ls[j - 1] == "" then RunBefore(ls, j - 1) + 1 else 0
  }

  /** An empty line that is the third or later of its run. */
  predicate Dropped(ls: seq<string>, j: nat)
    requires j < |ls|
  {
    ls[j] == "" && RunBefore(ls, j) >= 2
  }

  function CollapseUpTo(ls: seq<string>, k: nat): (r: seq<string>)
    requires k <= |ls|
    ensures |r| <= k
  {
    if k == 0 then []
    else
      var head := CollapseUpTo(ls, k - 1);
      if Dropped(ls, k - 1) then head else head + [ls[k - 1]]
  }

  function Collapse(ls: seq<string>): seq<string> {
    CollapseUpTo(ls, |ls|)
  }

  predicate NoThreeBlank(ls: seq<string>) {
    forall i :: 0 <= i < |ls| - 2 ==> !(ls[i] == "" && ls[i + 1] == "" && ls[i + 2] == "")
  }

  /** The number of empty lines at the end. */
  function TrailingBlanks(ls: seq<string>): (r: nat)
    ensures r <= |ls|
    ensures forall i :: |ls| - r <= i < |ls| ==> ls[i] == ""
    ensures r < |ls| ==> ls[|ls| - 1 - r] != ""
  {
    if |ls| == 0 || ls[|ls| - 1] != "" then 0 else TrailingBlanks(ls[..|ls| - 1]) + 1
  }

  lemma TrailingBlanksAppend(h: seq<string>, x: string)
    ensures TrailingBlanks(h + [x]) == if x == "" then TrailingBlanks(h) + 1 else 0
  {
    assert (h + [x])[..|h|] == h;
  }

  lemma NoThreeAppend(h: seq<string>, x: string)
    requires NoThreeBlank(h) && (x != "" || TrailingBlanks(h) < 2)
    ensures NoThreeBlank(h + [x])
  {
    var out := h + [x];
    forall i | 0 <= i < |out| - 2
      ensures !(out[i] == "" && out[i + 1] == "" && out[i + 2] == "")
    {
      if i + 2 < |h| {
        assert out[i] == h[i] && out[i + 1] == h[i + 1] && out[i + 2] == h[i + 2];
      } else if x == "" {
        var t := TrailingBlanks(h);
        assert h[|h| - 1 - t] != "";
        assert |h| - 1 - t == i || |h| - 1 - t == i + 1;
      }
    }
  }

  /** After collapsing, the output ends in as many empty lines as the input run, but at most two. */
  lemma {:induction false} CollapseTrailing(ls: seq<string>, k: nat)
    requires k <= |ls|
    ensures TrailingBlanks(CollapseUpTo(ls, k)) == Min(RunBefore(ls, k), 2)
  {
    if k > 0 {
      CollapseTrailing(ls, k - 1);
      var head := CollapseUpTo(ls, k - 1);
      var x := ls[k - 1];
      assert RunBefore(ls, k) == if x == "" then RunBefore(ls, k - 1) + 1 else 0;
      if !Dropped(ls, k - 1) {
        assert CollapseUpTo(ls, k) == head + [x];
        TrailingBlanksAppend(head, x);
      }
    }
  }

  /** After collapsing, the output ends in as many empty lines as the input run, but at most two, and holds no three in a row. */
  lemma {:induction false} CollapseTail(ls: seq<string>, k: nat)
    requires k <= |ls|
    ensures TrailingBlanks(CollapseUpTo(ls, k)) == Min(RunBefore(ls, k), 2)
    ensures NoThreeBlank(CollapseUpTo(ls, k))
  {
    CollapseTrailing(ls, k);
    if k > 0 {
      CollapseTail(ls, k - 1);
      CollapseStepNoThree(ls, k);
    }
  }

  /** One step of the collapse keeps the output free of three empty lines in a row. */
  lemma CollapseStepNoThree(ls: seq<string>, k: nat)
    requires 0 < k <= |ls|
    requires NoThreeBlank(CollapseUpTo(ls, k - 1))
    requires TrailingBlanks(CollapseUpTo(ls, k - 1)) == Min(RunBefore(ls, k - 1), 2)
    ensures NoThreeBlank(CollapseUpTo(ls, k))
  {
    var head := CollapseUpTo(ls, k - 1);
    var x := ls[k - 1];
    if !Dropped(ls, k - 1) {
      assert CollapseUpTo(ls, k) == head + [x];
      assert x != "" || TrailingBlanks(head) < 2;
      NoThreeAppend(head, x);
    }
  }

  /** Collapsing leaves no run of more than two empty lines. */
  lemma CollapseNoThreeBlank(ls: seq<string>)
    ensures NoThreeBlank(Collapse(ls))
  {
    CollapseTail(ls, |ls|);
  }

  lemma RunBeforeTwo(ls: seq<string>, j: nat)
    requires j <= |ls| && RunBefore(ls, j) >= 2
    ensures ls[j - 1] == "" && ls[j - 2] == ""
  {
  }

  lemma NoThreeNotDropped(ls: seq<string>, j: nat)
    requires j < |ls| && NoThreeBlank(ls)
    ensures !Dropped(ls, j)
  {
    if RunBefore(ls, j) >= 2 {
      RunBeforeTwo(ls, j);
      assert !(ls[j - 2] == "" && ls[j - 1] == "" && ls[j] == "");
    }
  }

  /** Lines that already have no three empty lines in a row are left exactly as they are. */
  lemma {:induction false} CollapseKeeps(ls: seq<string>, k: nat)
    requires k <= |ls| && NoThreeBlank(ls)
    ensures CollapseUpTo(ls, k) == ls[..k]
  {
    if k > 0 {
      CollapseKeeps(ls, k - 1);
      NoThreeNotDropped(ls, k - 1);
      assert ls[..k] == ls[..k - 1] + [ls[k - 1]];
    }
  }

  /** Collapsing is idempotent. */
  lemma CollapseIdempotent(ls: seq<string>)
    ensures Collapse(Collapse(ls)) == Collapse(ls)
  {
    CollapseNoThreeBlank(ls);
    var c := Collapse(ls);
    CollapseKeeps(c, |c|);
    assert c[..|c|] == c;
  }

  /** The non-empty lines in order. */
  function NonBlank(ls: seq<string>): seq<string> {
    if |ls| == 0 then [] else NonBlank(ls[..|ls| - 1]) + (if ls[|ls| - 1] == "" then [] else [ls[|ls| - 1]])
  }

  /** Collapsing removes empty lines only: the non-empty ones all survive, in order. */
  lemma {:induction false} CollapseKeepsNonBlank(ls: seq<string>, k: nat)
    requires k <= |ls|
    ensures NonBlank(CollapseUpTo(ls, k)) == NonBlank(ls[..k])
  {
    if k > 0 {
      CollapseKeepsNonBlank(ls, k - 1);
      var head := CollapseUpTo(ls, k - 1);
      assert ls[..k][..k - 1] == ls[..k - 1];
      if !Dropped(ls, k - 1) {
        assert (head + [ls[k - 1]])[..|head|] == head;
      }
    }
  }

  function RemoveDuplicatedLinesSpec(contents: string, threshold: int, prefixes: seq<string>): (r: Result<string>)
    ensures r.Err? <==> threshold <= 1
    ensures r.Err? ==> r.error == AssertionError
  {
    if threshold <= 1 then Err(AssertionError)
    else Ok(Join(Collapse(Dedup(Normalize(Split(contents, '\n')), threshold, prefixes)), "\n"))
  }

  /** `dup[x]` lists exactly the positions of `x`, for every non-empty line `x`. */
  ghost predicate IndexOk(lines: seq<string>, dup: map<string, seq<int>>) {
    (forall x :: x in dup <==> x != "" && x in lines)
    && (forall x :: x in dup ==> |dup[x]| == multiset(lines)[x])
    && (forall x :: x in dup ==> forall j :: j in dup[x] ==> 0 <= j < |lines| && lines[j] == x)
    && (forall j :: 0 <= j < |lines| && lines[j] != "" ==> lines[j] in dup && j in dup[lines[j]])
  }

  lemma IndexAdd(lines: seq<string>, dup: map<string, seq<int>>, line: string)
    requires IndexOk(lines, dup)
    ensures line != "" ==> IndexOk(lines + [line], dup[line := (if line in dup then dup[line] else []) + [|lines|]])
    ensures line == "" ==> IndexOk(lines + [line], dup)
  {
    if line != "" {
      IndexAddLine(lines, dup, line);
    } else {
      IndexAddBlank(lines, dup);
    }
  }

  lemma IndexAddLine(lines: seq<string>, dup: map<string, seq<int>>, line: string)
    requires IndexOk(lines, dup) && line != ""
    ensures IndexOk(lines + [line], dup[line := (if line in dup then dup[line] else []) + [|lines|]])
  {
    var l2 := lines + [line];
    assert multiset(l2) == multiset(lines) + multiset{line};
    assert l2[..|lines|] == lines;
    var d2 := dup[line := (if line in dup then dup[line] else []) + [|lines|]];
    forall x | x in d2
      ensures forall j :: j in d2[x] ==> 0 <= j < |l2| && l2[j] == x
    {
      if x != line {
        assert d2[x] == dup[x];
      }
    }
  }

  lemma IndexAddBlank(lines: seq<string>, dup: map<string, seq<int>>)
    requires IndexOk(lines, dup)
    ensures IndexOk(lines + [""], dup)
  {
    var l2 := lines + [""];
    assert multiset(l2) == multiset(lines) + multiset{""};
    assert l2[..|lines|] == lines;
  }

  /**
   * The first loop: whitespace-only lines become empty and every other line's positions are
   * recorded under the line.
   */
  method IndexLines(contents: string) returns (lines: seq<string>, dup: map<string, seq<int>>)
    ensures lines == Normalize(Split(contents, '\n'))
    ensures IndexOk(lines, dup)
  {
    var raw := Split(contents, '\n');
    lines, dup := IndexRaw(raw);
  }

  /** The first loop over the split lines. */
  method IndexRaw(raw: seq<string>) returns (lines: seq<string>, dup: map<string, seq<int>>)
    ensures lines == Normalize(raw)
    ensures IndexOk(lines, dup)
  {
    lines := [];
    dup := map[];
    var i := 0;
    while i < |raw|
      invariant 0 <= i <= |raw|
      invariant lines == Normalize(raw[..i])
      invariant IndexOk(lines, dup)
    {
      assert raw[..i + 1][..i] == raw[..i];
      var line := raw[i];
      if Strip(line) != "" {
        IndexAdd(lines, dup, line);
        var prev := if line in dup then dup[line] else [];
        dup := dup[line := prev + [|lines|]];
        lines := lines + [line];
      } else {
        IndexAdd(lines, dup, "");
        lines := lines + [""];
      }
      i := i + 1;
    }
    assert raw[..|raw|] == raw;
  }

  /** The second loop and the filter: drop every position of every boilerplate line. */
  method DropBoiler(lines: seq<string>, dup: map<string, seq<int>>, threshold: int, prefixes: seq<string>) returns (kept: seq<string>)
    requires IndexOk(lines, dup)
    ensures kept == Dedup(lines, threshold, prefixes)
  {
    var boiler := MarkBoiler(lines, dup, threshold, prefixes);
    kept := KeepUnmarked(lines, boiler, threshold, prefixes);
  }

  /** The second loop: the positions of every line seen at least `threshold` times and not whitelisted. */
  method MarkBoiler(lines: seq<string>, dup: map<string, seq<int>>, threshold: int, prefixes: seq<string>) returns (boiler: set<int>)
    requires IndexOk(lines, dup)
    ensures forall j :: j in boiler <==> 0 <= j < |lines| && IsBoiler(lines, lines[j], threshold, prefixes)
  {
    boiler := {};
    var keys := dup.Keys;
    while keys != {}
      invariant keys <= dup.Keys
      invariant forall j :: j in boiler <==> 0 <= j < |lines| && lines[j] in dup && lines[j] !in keys && IsBoiler(lines, lines[j], threshold, prefixes)
      decreases |keys|
    {
      var x :| x in keys;
      if |dup[x]| >= threshold && !Whitelisted(x, prefixes) {
        boiler := boiler + (set j | j in dup[x]);
      }
      keys := keys - {x};
    }
    forall j | 0 <= j < |lines| && IsBoiler(lines, lines[j], threshold, prefixes)
      ensures lines[j] in dup
    {
    }
  }

  /** The filter: the lines whose positions are not marked. */
  method KeepUnmarked(lines: seq<string>, boiler: set<int>, threshold: int, prefixes: seq<string>) returns (kept: seq<string>)
    requires forall j :: j in boiler <==> 0 <= j < |lines| && IsBoiler(lines, lines[j], threshold, prefixes)
    ensures kept == Dedup(lines, threshold, prefixes)
  {
    kept := [];
    var i := 0;
    while i < |lines|
      invariant 0 <= i <= |lines|
      invariant kept == DedupUpTo(lines, i, threshold, prefixes)
    {
      if i !in boiler {
        kept := kept + [lines[i]];
      }
      i := i + 1;
    }
  }

  /** `set(range(a, b))`. */
  function Range(a: int, b: int): (r: set<int>)
    ensures forall j :: j in r <==> a <= j < b
    decreases b - a
  {
    if a >= b then {} else {a} + Range(a + 1, b)
  }

  lemma RunInside(ls: seq<string>, start: nat, j: nat)
    requires start <= j <= |ls| && RunBefore(ls, start) == 0
    requires forall m :: start <= m < j ==> ls[m] == ""
    ensures RunBefore(ls, j) == j - start
    decreases j - start
  {
    if j > start {
      RunInside(ls, start, j - 1);
    }
  }

  /** The third loop: find every empty line past the second of its run, then filter them out. */
  method CollapseBlankRuns(lines: seq<string>) returns (out: seq<string>)
    ensures out == Collapse(lines)
  {
    var emptyLines: set<int> := {};
    var start := -1;
    var i := 0;
    while i < |lines|
      invariant 0 <= i <= |lines| && -1 <= start < i
      invariant start >= 0 ==> RunBefore(lines, start) == 0 && forall m :: start <= m < i ==> lines[m] == ""
      invariant start < 0 ==> RunBefore(lines, i) == 0
      invariant forall j :: j in emptyLines <==> 0 <= j < (if start >= 0 then start else i) && Dropped(lines, j)
    {
      if start >= 0 {
        forall j | start <= j <= i
          ensures RunBefore(lines, j) == j - start
        {
          RunInside(lines, start, j);
        }
      }
      if lines[i] != "" {
        if start >= 0 && i - start > 2 {
          emptyLines := emptyLines + Range(start + 2, i);
        }
        start := -1;
      } else {
        if start < 0 {
          start := i;
        }
      }
      i := i + 1;
    }
    if start >= 0 {
      forall j | start <= j <= |lines|
        ensures RunBefore(lines, j) == j - start
      {
        RunInside(lines, start, j);
      }
    }
    if start >= 0 && |lines| - start > 2 {
      emptyLines := emptyLines + Range(start + 2, |lines|);
    }
    assert forall j :: j in emptyLines <==> 0 <= j < |lines| && Dropped(lines, j);
    out := [];
    i := 0;
    while i < |lines|
      invariant 0 <= i <= |lines|
      invariant out == CollapseUpTo(lines, i)
    {
      if i !in emptyLines {
        out := out + [lines[i]];
      }
      i := i + 1;
    }
  }

  lemma {:induction false} CollapseFrom(ls: seq<string>, k: nat, x: string)
    requires k <= |ls| && x in CollapseUpTo(ls, k)
    ensures x in ls[..k]
  {
    var head := CollapseUpTo(ls, k - 1);
    assert ls[..k] == ls[..k - 1] + [ls[k - 1]];
    if x in head {
      CollapseFrom(ls, k - 1, x);
    }
  }

  lemma {:induction false} DedupFrom(lines: seq<string>, k: nat, threshold: int, prefixes: seq<string>, x: string)
    requires k <= |lines| && x in DedupUpTo(lines, k, threshold, prefixes)
    ensures x in lines[..k]
  {
    assert lines[..k] == lines[..k - 1] + [lines[k - 1]];
    if x in DedupUpTo(lines, k - 1, threshold, prefixes) {
      DedupFrom(lines, k - 1, threshold, prefixes, x);
    }
  }

  lemma CollapseSub(ls: seq<string>, x: string)
    requires x in Collapse(ls)
    ensures x in ls
  {
    CollapseFrom(ls, |ls|, x);
    assert ls[..|ls|] == ls;
  }

  lemma DedupSub(lines: seq<string>, threshold: int, prefixes: seq<string>, x: string)
    requires x in Dedup(lines, threshold, prefixes)
    ensures x in lines
  {
    DedupFrom(lines, |lines|, threshold, prefixes, x);
    assert lines[..|lines|] == lines;
  }

  lemma NormalizeSub(raw: seq<string>, x: string)
    requires x in Normalize(raw)
    ensures x == "" || x in raw
  {
    var i :| 0 <= i < |raw| && Normalize(raw)[i] == x;
  }

  /** No surviving line holds a line break. */
  lemma SurvivorsSingleLine(contents: string, threshold: int, prefixes: seq<string>, x: string)
    requires x in Collapse(Dedup(Normalize(Split(contents, '\n')), threshold, prefixes))
    ensures '\n' !in x
  {
    var raw := Split(contents, '\n');
    var lines := Normalize(raw);
    var kept := Dedup(lines, threshold, prefixes);
    CollapseSub(kept, x);
    DedupSub(lines, threshold, prefixes, x);
    NormalizeSub(raw, x);
    SplitParts(contents, '\n');
  }

  /** The result, split back into lines, never has three empty lines in a row. */
  lemma OutputNoThreeBlank(contents: string, threshold: int, prefixes: seq<string>)
    requires threshold > 1
    ensures NoThreeBlank(Split(RemoveDuplicatedLinesSpec(contents, threshold, prefixes).value, '\n'))
  {
    var kept := Dedup(Normalize(Split(contents, '\n')), threshold, prefixes);
    var out := Collapse(kept);
    CollapseNoThreeBlank(kept);
    forall k | 0 <= k < |out|
      ensures '\n' !in out[k]
    {
      SurvivorsSingleLine(contents, threshold, prefixes, out[k]);
    }
    if |out| > 0 {
      SplitOfJoin(out, '\n');
    }
  }

  /** `remove_duplicated_lines`. */
  method RemoveDuplicatedLines(contents: string, threshold: int, prefixes: seq<string>) returns (r: Result<string>)
    ensures r == RemoveDuplicatedLinesSpec(contents, threshold, prefixes)
  {
    if threshold <= 1 {
      return Err(AssertionError);
    }
    var lines, dup := IndexLines(contents);
    var kept := DropBoiler(lines, dup, threshold, prefixes);
    var out := CollapseBlankRuns(kept);
    r := Ok(Join(out, "\n"));
  }
}
