/**
 * The GitHub-trending page reader (`scripts/sum_github_trending.py`): project records scanned out
 * of the page's markdown line by line, the README locations tried for a project, and the URLs
 * found in earlier conversation inputs, used to drop projects already summarised. The regular
 * expressions of the script are written out as scanners with the same leftmost-match results.
 */
module GithubTrending {
  import opened Wrappers
  import opened PyStr
  import Sorting

  const GithubPrefix := "https://github.com/"

  datatype Project = Project(
    url: string, owner: string, repo: string, fullName: string,
    description: string, language: string, stars: int, starsToday: int)

  predicate NotSlash(c: char) { c != '/' }
  predicate NotClose(c: char) { c != ')' }
  predicate DigitOrComma(c: char) { IsDigit(c) || c == ',' }

  // ---------------------------------------------------------------------------------------
  // the repository URL: https://github\.com/[^/]+/[^)]+

  /** The URL pattern for a fixed `site` prefix matched at `p`: the prefix, a run without '/', '/' and a run without ')'. */
  function SitePathAt(site: string, line: string, p: nat): (r: Option<string>)
    requires p <= |line|
    ensures r.Some? ==> p + |r.value| <= |line| && line[p..p + |r.value|] == r.value
  {
    if !StartsWith(line[p..], site) then None
    else
      var a := p + |site|;
      var n := Span(line, a, NotSlash);
      if n == 0 || a + n == |line| then None
      else
        var m := Span(line, a + n + 1, NotClose);
        if m == 0 then None else Some(line[p..a + n + 1 + m])
  }

  /** The repository URL pattern matched at position `p`. */
  function RepoUrlAt(line: string, p: nat): Option<string>
    requires p <= |line|
  {
    SitePathAt(GithubPrefix, line, p)
  }

  function RepoPattern(line: string): nat -> Option<string> {
    (q: nat) => if q <= |line| then RepoUrlAt(line, q) else None
  }

  /** `re.search(url_pattern, line)`. */
  function RepoUrl(line: string): Option<string> {
    Search(RepoPattern(line), 0, |line|)
  }

  /** A match is the prefix, a first segment without '/', '/', and a non-empty rest without ')'. */
  lemma SitePathShape(site: string, line: string, p: nat) returns (a: string, b: string)
    requires p <= |line| && SitePathAt(site, line, p).Some?
    ensures SitePathAt(site, line, p).value == site + a + "/" + b && a != "" && '/' !in a && b != "" && ')' !in b
  {
    var a0 := p + |site|;
    var n := Span(line, a0, NotSlash);
    var m := Span(line, a0 + n + 1, NotClose);
    assert SitePathAt(site, line, p) == Some(line[p..a0 + n + 1 + m]);
    SpanExcludes(line, a0, NotSlash, '/');
    SpanExcludes(line, a0 + n + 1, NotClose, ')');
    assert line[p..a0] == site;
    assert !NotSlash(line[a0 + n]);
    a, b := SitePathPieces(site, line, p, n, m);
  }

  /** The pieces of a URL match: the prefix, `n` characters without '/', '/', and `m` without ')'. */
  lemma SitePathPieces(site: string, line: string, p: nat, n: nat, m: nat) returns (a: string, b: string)
    requires p + |site| + n + 1 + m <= |line| && n > 0 && m > 0
    requires line[p..p + |site|] == site && line[p + |site| + n] == '/'
    requires '/' !in line[p + |site|..p + |site| + n] && ')' !in line[p + |site| + n + 1..p + |site| + n + 1 + m]
    ensures line[p..p + |site| + n + 1 + m] == site + a + "/" + b && a != "" && '/' !in a && b != "" && ')' !in b
  {
    var a0 := p + |site|;
    var e := a0 + n + 1 + m;
    a, b := line[a0..a0 + n], line[a0 + n + 1..e];
    SlashPieces(line, p, a0, a0 + n, e);
  }
  /** A slice with a '/' at `k` is the part before `j`, the part from `j` to `k`, the '/' and the rest. */
  lemma SlashPieces(line: string, p: nat, j: nat, k: nat, e: nat)
    requires p <= j <= k < e <= |line| && line[k] == '/'
    ensures line[p..e] == line[p..j] + line[j..k] + "/" + line[k + 1..e]
  {
    assert line[k..k + 1] == [line[k]] == "/";
    SliceJoin(line, p, j, e);
    SliceJoin(line, j, k, e);
    SliceJoin(line, k, k + 1, e);
  }

  /** A matched URL is the prefix, an owner without '/', '/', and a non-empty rest without ')'. */
  lemma RepoUrlShape(line: string, p: nat)
    requires p <= |line| && RepoUrlAt(line, p).Some?
    ensures exists a: string, b: string ::
              RepoUrlAt(line, p).value == GithubPrefix + a + "/" + b && a != "" && '/' !in a && b != "" && ')' !in b
  {
    var a, b := SitePathShape(GithubPrefix, line, p);
  }

  /** The '/'-parts of `h/e/g/x` when `h`, `e` and `g` have no '/'. */
  lemma SplitThree(h: string, e: string, g: string, c: char, x: string)
    requires c !in h && c !in e && c !in g
    ensures Split(h + [c] + e + [c] + g + [c] + x, c) == [h, e, g] + Split(x, c)
  {
    var t3 := g + [c] + x;
    var t2 := e + [c] + t3;
    assert h + [c] + e + [c] + g + [c] + x == h + [c] + t2;
    SplitLead(g, c, x);
    SplitLead(e, c, t3);
    SplitLead(h, c, t2);
  }

  /** A leading part without the separator is the first part. */
  lemma SplitLead(h: string, c: char, t: string)
    requires c !in h
    ensures Split(h + [c] + t, c) == [h] + Split(t, c)
  {
    SplitAround(h, c, t);
    SplitNoSep(h, c);
  }

  /** The prefix contributes the parts `https:`, "" and `github.com`. */
  lemma PrefixParts(x: string)
    ensures Split(GithubPrefix + x, '/') == ["https:", "", "github.com"] + Split(x, '/')
  {
    assert GithubPrefix == "https:" + ['/'] + "" + ['/'] + "github.com" + ['/'];
    assert '/' !in "https:" && '/' !in "github.com";
    SplitThree("https:", "", "github.com", '/', x);
  }

  /** A URL of the matched shape splits into the prefix's three parts, the owner, and at least one more part. */
  lemma OwnerParts(a: string, b: string)
    requires a != "" && '/' !in a
    ensures var url := GithubPrefix + a + "/" + b; var parts := Split(url, '/');
      StartsWith(url, GithubPrefix) && |parts| >= 5 && parts[3] == a
  {
    var url := GithubPrefix + a + "/" + b;
    assert url == GithubPrefix + (a + ['/'] + b);
    PrefixParts(a + ['/'] + b);
    SplitAround(a, '/', b);
    SplitNoSep(a, '/');
    assert url[..|GithubPrefix|] == GithubPrefix;
  }

  /** Every match has at least five '/'-parts, part 3 being the owner: the fallback of the source is never needed. */
  lemma RepoUrlParts(line: string)
    requires RepoUrl(line).Some?
    ensures var url := RepoUrl(line).value; var parts := Split(url, '/');
      StartsWith(url, GithubPrefix) && |parts| >= 5 && parts[3] != "" && '/' !in parts[3]
  {
    var url := RepoUrl(line).value;
    SearchLeftmost(RepoPattern(line), 0, |line|);
    var q: nat :| q <= |line| && RepoPattern(line)(q) == Some(url) && forall j: nat :: j < q ==> RepoPattern(line)(j).None?;
    RepoUrlShape(line, q);
    var a, b :| url == GithubPrefix + a + "/" + b && a != "" && '/' !in a && b != "" && ')' !in b;
    OwnerParts(a, b);
  }

  // ---------------------------------------------------------------------------------------
  // the description line

  /** `re.match(r'^[A-Z][a-z]+ \[', s)`. */
  predicate TitleWordBracket(s: string) {
    |s| > 0 && IsUpper(s[0])
    && var n := Span(s, 1, IsLower);
       n >= 1 && 1 + n + 1 < |s| && s[1 + n] == ' ' && s[2 + n] == '['
  }

  /** Longer than 10 characters, without a markdown or language-line start. */
  predicate DescriptionLike(s: string) {
    |s| > 10 && !StartsWith(s, "[") && !StartsWith(s, "##") && !StartsWith(s, "TypeScript")
    && !StartsWith(s, "Python") && !StartsWith(s, "JavaScript") && !TitleWordBracket(s)
  }

  /** The stripped next line when it looks like a description, else "". */
  function Description(lines: seq<string>, i: nat): (d: string)
    ensures d == "" || (i + 1 < |lines| && d == Strip(lines[i + 1]) && DescriptionLike(d))
    ensures i + 1 < |lines| && DescriptionLike(Strip(lines[i + 1])) ==> d == Strip(lines[i + 1])
  {
    if i + 1 < |lines| && DescriptionLike(Strip(lines[i + 1])) then Strip(lines[i + 1]) else ""
  }

  // ---------------------------------------------------------------------------------------
  // the star counts: \[ ([\d,]+)\]\([^)]*/stargazers\)  and  (\d+(?:,\d+)*)\s+stars today

  /** The star-count pattern at `p`: its digits-and-commas group. */
  function StarsAt(l: string, p: nat): Option<string>
    requires p <= |l|
  {
    if !StartsWith(l[p..], "[ ") then None
    else
      var a := p + 2;
      var n := Span(l, a, DigitOrComma);
      if n == 0 || !StartsWith(l[a + n..], "](") then None
      else
        var b := a + n + 2;
        var m := Span(l, b, NotClose);
        if b + m < |l| && EndsWith(l[b..b + m], "/stargazers") then Some(l[a..a + n]) else None
  }

  /** The group of a star-count match is a non-empty run of digits and commas, placed after `[ `. */
  lemma StarsAtShape(l: string, p: nat)
    requires p <= |l| && StarsAt(l, p).Some?
    ensures var g := StarsAt(l, p).value;
      g != "" && (forall k :: 0 <= k < |g| ==> DigitOrComma(g[k])) && StartsWith(l[p..], "[ " + g + "](")
  {
    var a := p + 2;
    var n := Span(l, a, DigitOrComma);
    SpanAccepts(l, a, DigitOrComma);
    var g := l[a..a + n];
    assert l[p..][..|"[ " + g + "]("|] == "[ " + g + "](" by {
      assert l[p..p + 2] == "[ " && l[a + n..a + n + 2] == "](";
      assert l[p..a + n + 2] == l[p..p + 2] + g + l[a + n..a + n + 2];
    }
  }

  /** After a digit run at `e`: the end of the following comma-digits groups. */
  function GroupEnd(l: string, e: nat): (f: nat)
    requires e <= |l|
    ensures e <= f <= |l|
    decreases |l| - e
  {
    if e + 1 < |l| && l[e] == ',' && IsDigit(l[e + 1]) then
      GroupEnd(l, e + 1 + Span(l, e + 1, IsDigit))
    else e
  }

  lemma {:induction false} GroupEndAccepts(l: string, e: nat)
    requires e <= |l|
    ensures forall k :: e <= k < GroupEnd(l, e) ==> DigitOrComma(l[k])
    decreases |l| - e
  {
    if e + 1 < |l| && l[e] == ',' && IsDigit(l[e + 1]) {
      SpanAccepts(l, e + 1, IsDigit);
      GroupEndAccepts(l, e + 1 + Span(l, e + 1, IsDigit));
    }
  }

  /** The stars-today pattern at `p`: its number group, then whitespace and `stars today`. */
  function TodayAt(l: string, p: nat): Option<string>
    requires p <= |l|
  {
    var n := Span(l, p, IsDigit);
    if n == 0 then None
    else
      var e := GroupEnd(l, p + n);
      var w := Span(l, e, IsSpace);
      if w >= 1 && StartsWith(l[e + w..], "stars today") then Some(l[p..e]) else None
  }

  /** The group of a stars-today match starts with a digit, has only digits and commas, and is followed by whitespace. */
  lemma TodayAtShape(l: string, p: nat)
    requires p <= |l| && TodayAt(l, p).Some?
    ensures var g := TodayAt(l, p).value;
      g != "" && IsDigit(g[0]) && (forall k :: 0 <= k < |g| ==> DigitOrComma(g[k]))
      && p + |g| < |l| && l[p..p + |g|] == g && IsSpace(l[p + |g|])
  {
    var n := Span(l, p, IsDigit);
    SpanAccepts(l, p, IsDigit);
    var e := GroupEnd(l, p + n);
    GroupEndAccepts(l, p + n);
    var g := l[p..e];
    assert TodayAt(l, p) == Some(g);
    assert forall k :: 0 <= k < |g| ==> g[k] == l[p + k];
    assert IsSpace(l[e]);
  }

  function StarsPattern(l: string): nat -> Option<string> {
    (q: nat) => if q <= |l| then StarsAt(l, q) else None
  }

  function TodayPattern(l: string): nat -> Option<string> {
    (q: nat) => if q <= |l| then TodayAt(l, q) else None
  }

  /** `int(group.replace(',', ''))`, 0 when `int` raises or there is no match. */
  function CountOf(group: Option<string>): int {
    if group.None? then 0
    else match PyInt(ReplaceAll(group.value, ",", ""))
      case Ok(n) => n
      case Err(_) => 0
  }

  /** Removing the commas of a digits-and-commas text leaves digits only, and keeps a leading digit. */
  lemma {:induction false} CommaFreeDigits(g: string)
    requires forall k :: 0 <= k < |g| ==> DigitOrComma(g[k])
    ensures var d := ReplaceAll(g, ",", "");
      (forall k :: 0 <= k < |d| ==> IsDigit(d[k])) && (|g| > 0 && IsDigit(g[0]) ==> |d| > 0 && d[0] == g[0])
    decreases |g|
  {
    if |g| > 0 {
      CommaFreeDigits(g[1..]);
      if StartsWith(g, ",") {
        assert ReplaceAll(g, ",", "") == "" + ReplaceAll(g[1..], ",", "");
      } else {
        assert ReplaceAll(g, ",", "") == [g[0]] + ReplaceAll(g[1..], ",", "");
      }
    }
  }

  /**
   * A digits-and-commas group counts as the value of its digits; a group of commas only leaves ""
   * for `int`, which raises, so the count falls back to 0 (the value of no digits).
   */
  lemma CountOfDigits(g: string)
    requires forall k :: 0 <= k < |g| ==> DigitOrComma(g[k])
    ensures CountOf(Some(g)) == DecValue(ReplaceAll(g, ",", ""))
    ensures ReplaceAll(g, ",", "") == "" ==> PyInt(ReplaceAll(g, ",", "")).Err?
  {
    var d := ReplaceAll(g, ",", "");
    CommaFreeDigits(g);
    if d != "" {
      PyIntOfDigits(d);
    }
  }

  /** The first line containing `stargazers` in `[j, min(|lines|, start + 3))`. */
  function StarLine(lines: seq<string>, start: nat, j: nat): (r: Option<nat>)
    requires start <= j
    ensures r.Some? ==> j <= r.value < |lines|
    decreases start + 3 - j
  {
    if j >= |lines| || j >= start + 3 then None
    else if Contains(lines[j], "stargazers") then Some(j)
    else StarLine(lines, start, j + 1)
  }

  /** The star line is the first line of the window that contains `stargazers`; none means no line of it does. */
  lemma {:induction false} StarLineFirst(lines: seq<string>, start: nat, j: nat)
    requires start <= j
    ensures var r := StarLine(lines, start, j);
      (r.Some? ==> r.value < start + 3 && Contains(lines[r.value], "stargazers")
                   && forall k :: j <= k < r.value ==> !Contains(lines[k], "stargazers"))
      && (r.None? <==> forall k :: j <= k < |lines| && k < start + 3 ==> !Contains(lines[k], "stargazers"))
    decreases start + 3 - j
  {
    if j < |lines| && j < start + 3 && !Contains(lines[j], "stargazers") {
      StarLineFirst(lines, start, j + 1);
    }
  }

  function StarsCount(l: string): int {
    CountOf(Search(StarsPattern(l), 0, |l|))
  }

  function TodayCount(l: string): int {
    CountOf(Search(TodayPattern(l), 0, |l|))
  }

  /** Language and the two counts from the star line; defaults `Unknown`, 0 and 0. */
  function Stats(lines: seq<string>, start: nat): (string, int, int) {
    match StarLine(lines, start, start)
    case None => ("Unknown", 0, 0)
    case Some(j) =>
      var words := Words(Strip(lines[j]));
      (if |words| > 0 then words[0] else "Unknown", StarsCount(lines[j]), TodayCount(lines[j]))
  }

  /** Without a line containing `stargazers` in the window the defaults stay. */
  lemma StatsDefaults(lines: seq<string>, start: nat)
    requires forall k :: start <= k < |lines| && k < start + 3 ==> !Contains(lines[k], "stargazers")
    ensures Stats(lines, start) == ("Unknown", 0, 0)
  {
    StarLineFirst(lines, start, start);
  }

  /** Both counts are the value of the matched digits with the commas removed, 0 without a match. */
  lemma CountsAreDigits(l: string)
    ensures var s := Search(StarsPattern(l), 0, |l|);
      StarsCount(l) == if s.None? then 0 else DecValue(ReplaceAll(s.value, ",", ""))
    ensures var t := Search(TodayPattern(l), 0, |l|);
      TodayCount(l) == if t.None? then 0 else DecValue(ReplaceAll(t.value, ",", ""))
  {
    StarsCountDigits(l);
    TodayCountDigits(l);
  }

  /** The star count of `CountsAreDigits`. */
  lemma StarsCountDigits(l: string)
    ensures var s := Search(StarsPattern(l), 0, |l|);
      StarsCount(l) == if s.None? then 0 else DecValue(ReplaceAll(s.value, ",", ""))
  {
    SearchLeftmost(StarsPattern(l), 0, |l|);
    var s := Search(StarsPattern(l), 0, |l|);
    if s.Some? {
      var q: nat :| q <= |l| && StarsPattern(l)(q) == s;
      StarsAtShape(l, q);
      CountOfDigits(s.value);
    }
  }

  /** The count of today's stars of `CountsAreDigits`. */
  lemma TodayCountDigits(l: string)
    ensures var t := Search(TodayPattern(l), 0, |l|);
      TodayCount(l) == if t.None? then 0 else DecValue(ReplaceAll(t.value, ",", ""))
  {
    SearchLeftmost(TodayPattern(l), 0, |l|);
    var t := Search(TodayPattern(l), 0, |l|);
    if t.Some? {
      var q: nat :| q <= |l| && TodayPattern(l)(q) == t;
      TodayAtShape(l, q);
      CountOfDigits(t.value);
    }
  }

  /** A group of commas only (which the star pattern accepts) is caught by the `except` and counts 0. */
  lemma CommaOnlyCount(g: string)
    requires forall k :: 0 <= k < |g| ==> g[k] == ','
    ensures CountOf(Some(g)) == 0
  {
    var d := ReplaceAll(g, ",", "");
    CountOfDigits(g);
    CommaFreeDigits(g);
    if d != "" {
      ReplaceKeepsAbsent(g, ",", "", d[0]);
      assert false;
    }
  }

  // ---------------------------------------------------------------------------------------
  // extract_projects

  /** A project title line: `##` after stripping, and a GitHub link. */
  predicate TitleLine(line: string) {
    StartsWith(Strip(line), "##") && Contains(line, "](https://github.com/")
  }

  /** The project whose title is line `i`, if it is one. */
  function ProjectAt(lines: seq<string>, i: nat): Option<Project>
    requires i < |lines|
  {
    if !TitleLine(lines[i]) then None
    else
      match RepoUrl(lines[i])
      case None => None
      case Some(url) =>
        var parts := Split(url, '/');
        if |parts| < 5 then
          // the source's title-pattern fallback: never reached, see RepoUrlParts
          None
        else
          var desc := Description(lines, i);
          var stats := Stats(lines, if desc != "" then i + 2 else i + 1);
          Some(Project(url, parts[3], parts[4], parts[3] + "/" + parts[4], desc, stats.0, stats.1, stats.2))
  }

  /** The projects of the first `k` lines, in line order. */
  function ProjectsUpTo(lines: seq<string>, k: nat): (r: seq<Project>)
    requires k <= |lines|
    ensures |r| <= k
  {
    if k == 0 then []
    else
      var p := ProjectAt(lines, k - 1);
      ProjectsUpTo(lines, k - 1) + (if p.Some? then [p.value] else [])
  }

  /** `extract_projects`: a scan over the lines of the page, appending one project per title line. */
  method ExtractProjects(contents: string) returns (projects: seq<Project>)
    ensures var lines := Split(contents, '\n');
      projects == ProjectsUpTo(lines, |lines|)
  {
    var lines := Split(contents, '\n');
    projects := ScanLines(lines);
  }

  /** The loop of `extract_projects` over the page's lines. */
  method ScanLines(lines: seq<string>) returns (projects: seq<Project>)
    ensures projects == ProjectsUpTo(lines, |lines|)
  {
    projects := [];
    for i := 0 to |lines|
      invariant projects == ProjectsUpTo(lines, i)
    {
      var p := ProjectAt(lines, i);
      if p.Some? {
        projects := projects + [p.value];
      }
    }
  }

  /** The projects are exactly those of the title lines that carry a repository URL. */
  lemma ProjectsFromTitles(lines: seq<string>)
    ensures forall p :: p in ProjectsUpTo(lines, |lines|) <==> exists i :: 0 <= i < |lines| && ProjectAt(lines, i) == Some(p)
  {
    ProjectsGathered(lines, |lines|);
    GatherMembers(ProjectStep(lines), |lines|);
    forall p
      ensures (exists i: nat :: i < |lines| && ProjectStep(lines)(i) == Some(p)) <==>
                exists i :: 0 <= i < |lines| && ProjectAt(lines, i) == Some(p)
    {
      if i: nat :| i < |lines| && ProjectStep(lines)(i) == Some(p) {
        assert ProjectAt(lines, i) == Some(p);
      }
      if i :| 0 <= i < |lines| && ProjectAt(lines, i) == Some(p) {
        assert ProjectStep(lines)(i) == Some(p);
      }
    }
  }

  function ProjectStep(lines: seq<string>): nat -> Option<Project> {
    (i: nat) => if i < |lines| then ProjectAt(lines, i) else None
  }

  /** The scan gathers what each line yields. */
  lemma {:induction false} ProjectsGathered(lines: seq<string>, k: nat)
    requires k <= |lines|
    ensures ProjectsUpTo(lines, k) == Gather(ProjectStep(lines), k)
  {
    if k > 0 {
      ProjectsGathered(lines, k - 1);
      assert ProjectStep(lines)(k - 1) == ProjectAt(lines, k - 1);
    }
  }

  /** A line gives a project exactly when it is a title line whose URL matches. */
  lemma ProjectWhen(lines: seq<string>, i: nat)
    requires i < |lines|
    ensures ProjectAt(lines, i).Some? <==> TitleLine(lines[i]) && RepoUrl(lines[i]).Some?
  {
    if TitleLine(lines[i]) && RepoUrl(lines[i]).Some? {
      RepoUrlParts(lines[i]);
    }
  }

  /**
   * The fields of a project: the matched URL; owner and repository are its parts 3 and 4; the
   * description is the next stripped line or ""; the statistics come from the window that starts
   * after the description, or after the title when there is none.
   */
  lemma ProjectFields(lines: seq<string>, i: nat)
    requires i < |lines| && ProjectAt(lines, i).Some?
    ensures var p := ProjectAt(lines, i).value; var parts := Split(p.url, '/');
      Some(p.url) == RepoUrl(lines[i]) && StartsWith(p.url, GithubPrefix)
      && p.owner == parts[3] && p.repo == parts[4] && p.fullName == p.owner + "/" + p.repo
      && p.owner != "" && '/' !in p.owner
      && p.description == Description(lines, i)
      && (p.language, p.stars, p.starsToday) == Stats(lines, if p.description != "" then i + 2 else i + 1)
  {
    RepoUrlParts(lines[i]);
  }

  // ---------------------------------------------------------------------------------------
  // build_readme_url

  /** `build_readme_url`: the README on `main`, the README on `master`, then the repository page's readme anchor. */
  function ReadmeUrls(url: string): (r: seq<string>)
    ensures |r| == 3 && forall k :: 0 <= k < 3 ==> StartsWith(r[k], url)
    ensures r[0] != r[1] && r[1] != r[2] && r[0] != r[2]
    ensures EndsWith(r[0], "/blob/main/README.md") && EndsWith(r[1], "/blob/master/README.md") && EndsWith(r[2], "#readme")
  {
    var r := [url + "/blob/main/README.md", url + "/blob/master/README.md", url + "#readme"];
    assert r[0][|url|..] == "/blob/main/README.md" && r[1][|url|..] == "/blob/master/README.md" && r[2][|url|..] == "#readme";
    assert r[0][..|url|] == url && r[1][..|url|] == url && r[2][..|url|] == url;
    r
  }

  /** Each candidate is exactly the repository URL followed by its suffix, and nothing else is tried. */
  lemma ReadmeUrlsExact(url: string)
    ensures forall u :: u in ReadmeUrls(url) <==>
      u == url + "/blob/main/README.md" || u == url + "/blob/master/README.md" || u == url + "#readme"
  {
    var r := ReadmeUrls(url);
    var want := [url + "/blob/main/README.md", url + "/blob/master/README.md", url + "#readme"];
    forall k | 0 <= k < 3 ensures r[k] == want[k] {
      assert r[k] == r[k][..|url|] + r[k][|url|..];
    }
    assert r == want;
  }

  // ---------------------------------------------------------------------------------------
  // URLs of earlier conversation inputs: \[.*?\]\((https?://[^)]+)\)

  /** The scheme length at `s`: 8 for `https://`, 7 for `http://`, 0 for neither. */
  function SchemeAt(l: string, s: nat): (n: nat)
    requires s <= |l|
    ensures n == 0 || n == 7 || n == 8
    ensures n > 0 ==> s + n <= |l|
  {
    if StartsWith(l[s..], "https://") then 8 else if StartsWith(l[s..], "http://") then 7 else 0
  }

  /** After a link text, at `q`: `](`, a scheme, a non-empty run without ')' and ')'; the URL. */
  function LinkUrlAt(l: string, q: nat): Option<string>
    requires q <= |l|
  {
    if !StartsWith(l[q..], "](") then None
    else
      var n := SchemeAt(l, q + 2);
      if n == 0 then None
      else
        var m := Span(l, q + 2 + n, NotClose);
        if m == 0 || q + 2 + n + m == |l| then None else Some(l[q + 2..q + 2 + n + m])
  }

  /** The lazy `.*?`: the first closing position from `q`, not crossing a line break. */
  function LinkFrom(l: string, q: nat): Option<string>
    requires q <= |l|
    decreases |l| - q
  {
    if LinkUrlAt(l, q).Some? then LinkUrlAt(l, q)
    else if q == |l| || l[q] == '\n' then None
    else LinkFrom(l, q + 1)
  }

  function LinkPattern(l: string): nat -> Option<string> {
    (p: nat) => if p < |l| && l[p] == '[' then LinkFrom(l, p + 1) else None
  }

  /** The URL one history line contributes: its first link's URL, or the line itself when it starts with `http`. */
  function LineUrl(line: string): Option<string> {
    var l := Strip(line);
    if l == "" then None
    else match Search(LinkPattern(l), 0, |l|)
      case Some(u) => Some(u)
      case None => if StartsWith(l, "http") then Some(l) else None
  }

  /** `l` holds `](u)` at `q`, where `u` starts with a scheme and has no ')'. */
  predicate LinkShaped(l: string, q: nat, u: string) {
    (StartsWith(u, "https://") || StartsWith(u, "http://")) && ')' !in u
    && q + 2 + |u| < |l| && l[q..q + 2 + |u|] == "](" + u && l[q + 2 + |u|] == ')'
  }

  /** A link's URL starts with a scheme, has no ')' and is followed by ')'. */
  lemma LinkUrlShape(l: string, q: nat)
    requires q <= |l| && LinkUrlAt(l, q).Some?
    ensures LinkShaped(l, q, LinkUrlAt(l, q).value)
  {
    var s := q + 2;
    var n := SchemeAt(l, s);
    var m := Span(l, s + n, NotClose);
    SpanExcludes(l, s + n, NotClose, ')');
    assert LinkUrlAt(l, q) == Some(l[s..s + n + m]);
    assert StartsWith(l[q..], "](");
    assert l[s + n + m] == ')' by {
      assert !NotClose(l[s + n + m]);
    }
    LinkPieces(l, q, n, m);
  }

  /** The pieces of a link's close: `](`, a scheme of `n` characters, `m` without ')' and ')'. */
  lemma LinkPieces(l: string, q: nat, n: nat, m: nat)
    requires q + 2 + n + m < |l| && StartsWith(l[q..], "](")
    requires (n == 8 && StartsWith(l[q + 2..], "https://")) || (n == 7 && StartsWith(l[q + 2..], "http://"))
    requires ')' !in l[q + 2 + n..q + 2 + n + m] && l[q + 2 + n + m] == ')'
    ensures LinkShaped(l, q, l[q + 2..q + 2 + n + m])
  {
    var s := q + 2;
    var u := l[s..s + n + m];
    var scheme, rest := l[s..s + n], l[s + n..s + n + m];
    assert scheme == l[s..][..n];
    assert u[..n] == scheme;
    assert ')' !in scheme;
    SliceJoin(l, s, s + n, s + n + m);
    assert l[q..s] == l[q..][..2] == "](";
    SliceJoin(l, q, s, s + |u|);
  }

  /** A URL the link pattern accepts in full: a scheme and at least one more character. */
  predicate LinkTarget(url: string) {
    (StartsWith(url, "https://") && |url| > 8) || (StartsWith(url, "http://") && !StartsWith(url, "https://") && |url| > 7)
  }

  /** The scheme of a link target that `l` holds at `s`. */
  lemma SchemeOf(l: string, s: nat, url: string)
    requires LinkTarget(url) && s + |url| <= |l|
    requires forall k :: 0 <= k < |url| ==> l[s + k] == url[k]
    ensures SchemeAt(l, s) == if StartsWith(url, "https://") then 8 else 7
  {
    assert l[s..][..8] == url[..8];
    assert l[s..][..7] == url[..7];
  }

  /** The text `](url)` closes a link at `q` with that URL. */
  lemma LinkUrlAtOf(l: string, q: nat, url: string)
    requires ')' !in url && LinkTarget(url)
    requires q + 3 + |url| <= |l| && l[q..q + 3 + |url|] == "](" + url + ")"
    ensures LinkUrlAt(l, q) == Some(url)
  {
    var s := q + 2;
    CloseChars(l, q, url);
    SchemeOf(l, s, url);
    var n := SchemeAt(l, s);
    forall k | s + n <= k < s + |url|
      ensures NotClose(l[k])
    {
      assert l[k] == url[k - s];
    }
    assert !NotClose(l[s + |url|]);
    SpanOf(l, s + n, |url| - n, NotClose);
    assert StartsWith(l[q..], "](");
    assert n != 0 && s + n + (|url| - n) != |l|;
    forall k | 0 <= k < |url|
      ensures l[s..s + |url|][k] == url[k]
    {
      assert l[s..s + |url|][k] == l[s + k];
    }
    assert l[s..s + |url|] == url;
  }

  /** The characters of `](url)` at `q`, one by one. */
  lemma CloseChars(l: string, q: nat, url: string)
    requires q + 3 + |url| <= |l| && l[q..q + 3 + |url|] == "](" + url + ")"
    ensures forall k :: 0 <= k < |url| ==> l[q + 2 + k] == url[k]
    ensures l[q + 2 + |url|] == ')' && l[q..][..2] == "]("
  {
    var w := "](" + url + ")";
    forall k | 0 <= k < |w|
      ensures l[q + k] == w[k]
    {
      assert l[q..q + |w|][k] == l[q + k];
    }
    forall k | 0 <= k < |url|
      ensures l[q + 2 + k] == url[k]
    {
      assert w[2 + k] == url[k];
    }
    assert w[2 + |url|] == ')';
    assert w[0] == ']' && w[1] == '(';
  }

  /** A line that opens a link at 0 and first closes it at `q` with `](url)` has `url` as its first link. */
  lemma LinkSearchAt(l: string, q: nat, url: string)
    requires 1 <= q && q + 3 + |url| <= |l| && l[0] == '['
    requires forall k :: 1 <= k < q ==> l[k] != ']' && l[k] != '\n'
    requires ')' !in url && LinkTarget(url)
    requires l[q..q + 3 + |url|] == "](" + url + ")"
    ensures Search(LinkPattern(l), 0, |l|) == Some(url)
  {
    LinkFromFirst(l, q, url);
    PatternAtOpen(l);
    SearchAt(LinkPattern(l), 0, 0, |l|);
  }

  /** The lazy text from 1 runs to the first close at `q`. */
  lemma LinkFromFirst(l: string, q: nat, url: string)
    requires 1 <= q && q + 3 + |url| <= |l|
    requires forall k :: 1 <= k < q ==> l[k] != ']' && l[k] != '\n'
    requires ')' !in url && LinkTarget(url)
    requires l[q..q + 3 + |url|] == "](" + url + ")"
    ensures LinkFrom(l, 1) == Some(url)
  {
    forall k | 1 <= k < q
      ensures LinkUrlAt(l, k).None?
    {
      LinkNotAt(l, k);
    }
    LinkFromSkips(l, 1, q);
    LinkUrlAtOf(l, q, url);
  }

  /** At an opening '[' at 0 the pattern tries the lazy text from 1. */
  lemma PatternAtOpen(l: string)
    requires 0 < |l| && l[0] == '['
    ensures LinkPattern(l)(0) == LinkFrom(l, 1)
  {
  }

  /** No link closes where the text has no ']'. */
  lemma LinkNotAt(l: string, k: nat)
    requires k < |l| && l[k] != ']'
    ensures LinkUrlAt(l, k).None?
  {
    assert l[k..][0] == l[k];
  }

  /** The first link of a `[name](url)` line is `url`. */
  lemma LinkLineSearch(name: string, url: string)
    requires ']' !in name && '\n' !in name && ')' !in url
    requires LinkTarget(url)
    ensures var l := "[" + name + "](" + url + ")"; Search(LinkPattern(l), 0, |l|) == Some(url)
  {
    var l := "[" + name + "](" + url + ")";
    var q := 1 + |name|;
    assert l[q..q + 3 + |url|] == "](" + url + ")";
    assert forall k :: 1 <= k < q ==> l[k] == name[k - 1];
    LinkSearchAt(l, q, url);
  }

  /** A `[name](url)` line gives back its URL. */
  lemma LinkLineUrl(name: string, url: string)
    requires ']' !in name && '\n' !in name && ')' !in url
    requires LinkTarget(url)
    ensures LineUrl("[" + name + "](" + url + ")") == Some(url)
  {
    var l := "[" + name + "](" + url + ")";
    assert l[0] == '[' && l[|l| - 1] == ')';
    StripUnchanged(l);
    LinkLineSearch(name, url);
  }

  lemma {:induction false} LinkFromSkips(l: string, k: nat, q: nat)
    requires k <= q <= |l|
    requires forall j :: k <= j < q ==> LinkUrlAt(l, j).None? && l[j] != '\n'
    ensures LinkFrom(l, k) == LinkFrom(l, q)
    decreases q - k
  {
    if k < q {
      LinkFromSkips(l, k + 1, q);
    }
  }

  /** A non-blank line without a link that starts with `http` is taken whole. */
  lemma BareUrlLine(line: string)
    requires Strip(line) != "" && '[' !in Strip(line) && StartsWith(Strip(line), "http")
    ensures LineUrl(line) == Some(Strip(line))
  {
    var l := Strip(line);
    SearchLeftmost(LinkPattern(l), 0, |l|);
    assert forall p: nat :: p <= |l| ==> LinkPattern(l)(p).None? by {
      forall p: nat | p <= |l|
        ensures LinkPattern(l)(p).None?
      {
        if p < |l| {
          assert l[p] != '[';
        }
      }
    }
  }

  /** What line `i` contributes to the set of processed URLs. */
  function LineStep(lines: seq<string>): nat -> set<string> {
    (i: nat) => if i < |lines| && LineUrl(lines[i]).Some? then {LineUrl(lines[i]).value} else {}
  }

  /** What the f-th history file contributes: the URLs of its lines. */
  function FileStep(contents: seq<string>): nat -> set<string> {
    (f: nat) => if f < |contents| then UnionUpTo(LineStep(Split(contents[f], '\n')), |Split(contents[f], '\n')|) else {}
  }

  /** The URLs of one history file: the loop over its lines. */
  method FileUrls(contents: string) returns (urls: set<string>)
    ensures var lines := Split(contents, '\n');
      urls == UnionUpTo(LineStep(lines), |lines|)
  {
    var lines := Split(contents, '\n');
    urls := {};
    for i := 0 to |lines|
      invariant urls == UnionUpTo(LineStep(lines), i)
    {
      LineUrlsStep(lines, i);
      var u := LineUrl(lines[i]);
      if u.Some? {
        urls := urls + {u.value};
      }
    }
  }

  lemma LineStepAt(lines: seq<string>, i: nat)
    requires i < |lines|
    ensures LineStep(lines)(i) == if LineUrl(lines[i]).Some? then {LineUrl(lines[i]).value} else {}
  {
  }

  lemma LineUrlsStep(lines: seq<string>, i: nat)
    requires i < |lines|
    ensures UnionUpTo(LineStep(lines), i + 1)
      == UnionUpTo(LineStep(lines), i) + (if LineUrl(lines[i]).Some? then {LineUrl(lines[i]).value} else {})
  {
    LineStepAt(lines, i);
  }

  /** The loop over the recent history files. */
  method ProcessedUrls(contents: seq<string>) returns (urls: set<string>)
    ensures urls == UnionUpTo(FileStep(contents), |contents|)
  {
    urls := {};
    for f := 0 to |contents|
      invariant urls == UnionUpTo(FileStep(contents), f)
    {
      var fileUrls := FileUrls(contents[f]);
      FileUrlsStep(contents, f);
      urls := urls + fileUrls;
    }
  }

  lemma FileUrlsStep(contents: seq<string>, f: nat)
    requires f < |contents|
    ensures var lines := Split(contents[f], '\n');
      UnionUpTo(FileStep(contents), f + 1) == UnionUpTo(FileStep(contents), f) + UnionUpTo(LineStep(lines), |lines|)
  {
    FileStepAt(contents, f);
  }

  lemma FileStepAt(contents: seq<string>, f: nat)
    requires f < |contents|
    ensures var lines := Split(contents[f], '\n'); FileStep(contents)(f) == UnionUpTo(LineStep(lines), |lines|)
  {
  }

  /** Line `i` of history file `f` contributes `u`. */
  predicate FromLine(contents: seq<string>, f: int, i: int, u: string) {
    0 <= f < |contents| && 0 <= i < |Split(contents[f], '\n')| && LineUrl(Split(contents[f], '\n')[i]) == Some(u)
  }

  /** A URL is processed exactly when some line of some history file contributes it. */
  lemma ProcessedUrlsMembers(contents: seq<string>, u: string)
    ensures u in UnionUpTo(FileStep(contents), |contents|) <==> exists f, i :: FromLine(contents, f, i, u)
  {
    UnionUpToMembers(FileStep(contents), |contents|);
    if u in UnionUpTo(FileStep(contents), |contents|) {
      var f: nat :| f < |contents| && u in FileStep(contents)(f);
      FileStepAt(contents, f);
      FileUrlsMembers(Split(contents[f], '\n'), u);
      var i :| 0 <= i < |Split(contents[f], '\n')| && LineUrl(Split(contents[f], '\n')[i]) == Some(u);
      assert FromLine(contents, f, i, u);
    }
    if f, i :| FromLine(contents, f, i, u) {
      FileStepAt(contents, f);
      FileUrlsMembers(Split(contents[f], '\n'), u);
      assert u in FileStep(contents)(f);
    }
  }

  lemma FileUrlsMembers(lines: seq<string>, u: string)
    ensures u in UnionUpTo(LineStep(lines), |lines|) <==> exists i :: 0 <= i < |lines| && LineUrl(lines[i]) == Some(u)
  {
    UnionUpToMembers(LineStep(lines), |lines|);
    forall i: nat | i < |lines|
      ensures u in LineStep(lines)(i) <==> LineUrl(lines[i]) == Some(u)
    {
      LineStepAt(lines, i);
    }
  }

  /** The history files read: those ending `.input.txt`, newest name first, at most `n`. */
  function RecentInputs(files: seq<string>, n: nat): (r: seq<string>)
    ensures |r| <= n
    ensures |r| == if n < |InputFiles(files)| then n else |InputFiles(files)|
    ensures forall f :: f in r ==> f in files && EndsWith(f, ".input.txt")
    ensures multiset(r) <= multiset(InputFiles(files))
    ensures Sorting.SortedDesc(r, Sorting.StrLe)
    ensures forall f, g :: f in InputFiles(files) && f !in r && g in r ==> Sorting.StrLe(f, g)
  {
    var inputs := InputFiles(files);
    var sorted := Sorting.SortDesc(inputs, Sorting.StrLe);
    var m := if n < |sorted| then n else |sorted|;
    assert forall f :: f in sorted ==> f in inputs by {
      forall f | f in sorted ensures f in inputs {
        assert f in multiset(sorted);
      }
    }
    assert forall f :: f in inputs ==> f in sorted by {
      forall f | f in inputs ensures f in sorted {
        assert f in multiset(inputs);
      }
    }
    Sorting.StrLePreorder();
    Sorting.SortDescSorted(inputs, Sorting.StrLe);
    Sorting.TakeSorted(sorted, m, Sorting.StrLe);
    sorted[..m]
  }

  function InputFiles(files: seq<string>): (r: seq<string>)
    ensures forall f :: f in r <==> f in files && EndsWith(f, ".input.txt")
  {
    if |files| == 0 then []
    else
      assert forall f :: f in files <==> f == files[0] || f in files[1..];
      (if EndsWith(files[0], ".input.txt") then [files[0]] else []) + InputFiles(files[1..])
  }

  /** The projects whose URL was not seen, in their order. */
  function Unseen(projects: seq<Project>, seen: set<string>): (r: seq<Project>)
    ensures forall p :: p in r <==> p in projects && p.url !in seen
    ensures forall p :: multiset(r)[p] == if p.url in seen then 0 else multiset(projects)[p]
    ensures |r| <= |projects|
  {
    if |projects| == 0 then []
    else
      assert projects == [projects[0]] + projects[1..];
      assert forall p :: p in projects <==> p == projects[0] || p in projects[1..];
      (if projects[0].url !in seen then [projects[0]] else []) + Unseen(projects[1..], seen)
  }

  /** Filtering a concatenation filters each part and keeps their order. */
  lemma {:induction false} UnseenConcat(a: seq<Project>, b: seq<Project>, seen: set<string>)
    ensures Unseen(a + b, seen) == Unseen(a, seen) + Unseen(b, seen)
    decreases |a|
  {
    if |a| > 0 {
      assert (a + b)[1..] == a[1..] + b;
      UnseenConcat(a[1..], b, seen);
    } else {
      assert a + b == b;
    }
  }
}
