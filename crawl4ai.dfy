/**
 * The general-purpose crawler retriever (`crawl4ai`): its time-bucketed ids, its parser
 * dispatch, the xpath link extractor and the mapping of crawl results to fetch outcomes.
 * The browser, the markdown generator, lxml, `urljoin`, MD5 and `json.dumps` are parameters.
 */
module Crawl4AI {
  import opened Wrappers
  import opened PyStr
  import opened Calendar
  import WebUtils
  import OnlineContent

  const Name := "crawl4ai"

  /** `str(x).lower() in ['true', '1', 'yes']`. */
  predicate IsTrueFlag(v: string) {
    Lower(v) in ["true", "1", "yes"]
  }

  /** A flag parameter; the default is the Python `str()` of the default boolean. */
  predicate Flag(params: map<string, string>, key: string, default: bool) {
    IsTrueFlag(if key in params then params[key] else if default then "True" else "False")
  }

  /** A given flag is read from its text; an absent one is its default boolean. */
  lemma FlagMeaning(params: map<string, string>, key: string, default: bool)
    ensures Flag(params, key, default) <==> if key in params then IsTrueFlag(params[key]) else default
  {
    assert Lower("True") == "true";
    assert Lower("False") == "false";
  }

  /** The options the constructor reads from its parameters. */
  datatype Options = Options(
    cacheExpire: int, useProxy: bool, mobileMode: bool, debug: bool, meanDelay: real,
    parser: string, linkExtractor: Option<string>, stripBoilerplate: bool)

  /**
   * The constructor's reading of its parameters: `cache_expire` (hours, default 168) goes through
   * `int()`, which raises ValueError on text that is not an integer; then `mean_delay` (seconds,
   * default 1) goes through `float()`, given as `pyFloat` (None where Python raises ValueError).
   */
  function OptionsFromParams(params: map<string, string>, pyFloat: string -> Option<real>): (r: Result<Options>)
    ensures r.Err? <==> ("cache_expire" in params && PyInt(params["cache_expire"]).Err?)
                        || ("mean_delay" in params && pyFloat(params["mean_delay"]).None?)
    ensures r.Err? ==> r.error == ValueError
    ensures r.Ok? ==> r.value.cacheExpire == (if "cache_expire" in params then PyInt(params["cache_expire"]).value else 168)
    ensures r.Ok? ==> r.value.meanDelay == (if "mean_delay" in params then pyFloat(params["mean_delay"]).value else 1.0)
    ensures r.Ok? ==> r.value.parser == (if "parser" in params then params["parser"] else "markdown")
    ensures r.Ok? ==> (r.value.linkExtractor.Some? <==> "link_extractor" in params)
    ensures r.Ok? ==> r.value.linkExtractor.Some? ==> r.value.linkExtractor.value == params["link_extractor"]
    ensures r.Ok? ==> (r.value.useProxy <==> "use_proxy" in params && IsTrueFlag(params["use_proxy"]))
    ensures r.Ok? ==> (r.value.mobileMode <==> "mobile_mode" !in params || IsTrueFlag(params["mobile_mode"]))
    ensures r.Ok? ==> (r.value.debug <==> "debug" in params && IsTrueFlag(params["debug"]))
    ensures r.Ok? ==> (r.value.stripBoilerplate <==> "strip_boilerplate" in params && IsTrueFlag(params["strip_boilerplate"]))
  {
    FlagMeaning(params, "use_proxy", false);
    FlagMeaning(params, "mobile_mode", true);
    FlagMeaning(params, "debug", false);
    FlagMeaning(params, "strip_boilerplate", false);
    var expire := if "cache_expire" in params then PyInt(params["cache_expire"]) else Ok(24 * 7);
    var delay := if "mean_delay" in params then pyFloat(params["mean_delay"]) else Some(1.0);
    match expire
    case Err(e) => Err(e)
    case Ok(hours) =>
      if delay.None? then Err(ValueError)
      else
        Ok(Options(hours, Flag(params, "use_proxy", false), Flag(params, "mobile_mode", true), Flag(params, "debug", false),
                   delay.value,
                   if "parser" in params then params["parser"] else "markdown",
                   if "link_extractor" in params then Some(params["link_extractor"]) else None,
                   Flag(params, "strip_boilerplate", false)))
  }

  // ---------------------------------------------------------------------------------------
  // url2id

  /** The host labels, without a leading `www`. */
  function DomainParts(url: string): seq<string> {
    var labels := WebUtils.HostLabels(url);
    if labels[0] == "www" then labels[1..] else labels
  }

  /** The host labels without a leading `www` and a trailing `com`, joined in reverse with `_`; IndexError when no label is left after dropping `www`. */
  function DomainReverse(url: string): (r: Result<string>)
    ensures r.Err? <==> DomainParts(url) == []
    ensures r.Err? ==> r.error == IndexError
  {
    var dp := DomainParts(url);
    if |dp| == 0 then Err(IndexError)
    else
      var core := if dp[|dp| - 1] == "com" then dp[..|dp| - 1] else dp;
      Ok(Join(Reverse(core), "_"))
  }

  /** The labels that make up the domain part of the id. */
  function DomainCore(url: string): seq<string>
    requires DomainParts(url) != []
  {
    var dp := DomainParts(url);
    if dp[|dp| - 1] == "com" then dp[..|dp| - 1] else dp
  }

  /** The path part: everything after the host, `/`-joined. */
  function UrlPath(url: string): string {
    Join(Split(WebUtils.StripSchemes(url), '/')[1..], "/")
  }

  const HourMicros := 3600000000

  /** `int()` of a float quotient: division truncating toward zero. */
  function TruncDiv(a: int, b: int): (q: int)
    requires b > 0
    ensures a >= 0 ==> b * q <= a < b * q + b
    ensures a < 0 ==> b * q - b < a <= b * q
  {
    if a >= 0 then a / b else -((-a) / b)
  }

  /** Python's `//`: division rounding toward negative infinity. */
  function PyFloorDiv(a: int, b: int): (q: int)
    requires b != 0
    ensures b > 0 ==> b * q <= a < b * q + b
    ensures b < 0 ==> b * q >= a > b * q + b
  {
    if b > 0 then a / b else (-a) / (-b)
  }

  /** The whole hours elapsed since 2025-01-01 00:00, from the clock in microseconds. */
  function ElapsedHours(elapsedMicros: int): int {
    TruncDiv(elapsedMicros, HourMicros)
  }

  /** The start of the current cache window, in hours since 2025-01-01; ZeroDivisionError for a zero window. */
  function BucketHours(elapsedMicros: int, cacheExpire: int): (r: Result<int>)
    ensures r.Err? <==> cacheExpire == 0
    ensures r.Err? ==> r.error == ZeroDivisionError
  {
    if cacheExpire == 0 then Err(ZeroDivisionError)
    else Ok(PyFloorDiv(ElapsedHours(elapsedMicros), cacheExpire) * cacheExpire)
  }

  const TimeBase := DateHour(Date(2025, 1, 1), 0)

  /** `(time_base + timedelta(hours=h)).strftime('%Y%m%d%H')`; OverflowError outside the years 1 to 9999. */
  function TimeTag(hours: int): (r: Result<string>)
    ensures r.Ok? ==> |r.value| == 10 && IsDigits(r.value)
  {
    var t := AddHours(TimeBase, hours);
    if 1 <= t.date.year <= 9999 then
      FormatYmdLength(t.date);
      Pad2Digits(t.hour);
      Ok(FormatYmdH(t))
    else Err(OverflowError)
  }

  /**
   * `url2id`: reversed domain, the first 8 hex digits of the MD5 of the path, and the start of
   * the `cacheExpire`-hour window the clock is in. `md5Hex` stands for `hashlib.md5(...).hexdigest()`.
   */
  function Url2Id(url: string, elapsedMicros: int, md5Hex: string -> string, cacheExpire: int): (r: Result<string>)
    ensures r.Err? <==> DomainParts(url) == [] || cacheExpire == 0 || TimeTag(BucketHours(elapsedMicros, cacheExpire).value).Err?
    ensures DomainParts(url) == [] ==> r == Err(IndexError)
    ensures DomainParts(url) != [] && cacheExpire == 0 ==> r == Err(ZeroDivisionError)
    ensures r.Ok? ==> StartsWith(r.value, DomainReverse(url).value + "_")
    ensures r.Ok? ==> |r.value| >= 11 && r.value[|r.value| - 11] == '_'
    ensures r.Ok? ==> r.value[|r.value| - 10..] == TimeTag(BucketHours(elapsedMicros, cacheExpire).value).value
  {
    match DomainReverse(url)
    case Err(e) => Err(e)
    case Ok(domain) =>
      var hash := PyPrefix(md5Hex(UrlPath(url)), 8);
      match BucketHours(elapsedMicros, cacheExpire)
      case Err(e) => Err(e)
      case Ok(hours) =>
        match TimeTag(hours)
        case Err(e) => Err(e)
        case Ok(tag) => Ok(domain + "_" + hash + "_" + tag)
  }

  /** The window containing the clock starts at a multiple of the window length, at or before it, less than one window before it. */
  lemma BucketContainsNow(elapsedMicros: int, cacheExpire: int)
    requires cacheExpire > 0
    ensures var b := BucketHours(elapsedMicros, cacheExpire).value;
      var h := ElapsedHours(elapsedMicros);
      b % cacheExpire == 0 && b <= h < b + cacheExpire
  {
    var h := ElapsedHours(elapsedMicros);
    var q := PyFloorDiv(h, cacheExpire);
    assert (q * cacheExpire) % cacheExpire == 0 by {
      MulMod(q, cacheExpire);
    }
  }

  lemma MulAtLeast(x: int, e: int)
    requires x >= 1 && e > 0
    ensures x * e >= e
    decreases x
  {
    if x > 1 {
      MulAtLeast(x - 1, e);
      assert x * e == (x - 1) * e + e;
    }
  }

  lemma MulMod(q: int, e: int)
    requires e > 0
    ensures (q * e) % e == 0
  {
    var m := (q * e) % e;
    var d := (q * e) / e;
    assert q * e == d * e + m;
    assert (q - d) * e == m;
    assert (d - q) * e == -m;
    if q - d >= 1 {
      MulAtLeast(q - d, e);
    } else if d - q >= 1 {
      MulAtLeast(d - q, e);
    }
  }

  lemma FloorDivUnique(h: int, e: int, k: int)
    requires e > 0 && k * e <= h < k * e + e
    ensures PyFloorDiv(h, e) == k
  {
    var q := PyFloorDiv(h, e);
    assert (k - q) * e == k * e - q * e;
    assert (q - k) * e == q * e - k * e;
    if q < k {
      MulAtLeast(k - q, e);
    } else if q > k {
      MulAtLeast(q - k, e);
    }
  }

  /** Two calls whose clocks fall in the same window give the same id. */
  lemma SameWindowSameId(url: string, t1: int, t2: int, md5Hex: string -> string, cacheExpire: int, k: int)
    requires cacheExpire > 0
    requires k * cacheExpire <= ElapsedHours(t1) < k * cacheExpire + cacheExpire
    requires k * cacheExpire <= ElapsedHours(t2) < k * cacheExpire + cacheExpire
    ensures Url2Id(url, t1, md5Hex, cacheExpire) == Url2Id(url, t2, md5Hex, cacheExpire)
  {
    FloorDivUnique(ElapsedHours(t1), cacheExpire, k);
    FloorDivUnique(ElapsedHours(t2), cacheExpire, k);
  }

  /** Two calls in different windows give different ids: the cache expires. */
  lemma OtherWindowOtherId(url: string, t1: int, t2: int, md5Hex: string -> string, cacheExpire: int)
    requires Url2Id(url, t1, md5Hex, cacheExpire).Ok? && Url2Id(url, t2, md5Hex, cacheExpire).Ok?
    requires BucketHours(t1, cacheExpire) != BucketHours(t2, cacheExpire)
    ensures Url2Id(url, t1, md5Hex, cacheExpire) != Url2Id(url, t2, md5Hex, cacheExpire)
  {
    var b1, b2 := BucketHours(t1, cacheExpire).value, BucketHours(t2, cacheExpire).value;
    var tag1, tag2 := TimeTag(b1).value, TimeTag(b2).value;
    var pre := DomainReverse(url).value + "_" + PyPrefix(md5Hex(UrlPath(url)), 8) + "_";
    if Url2Id(url, t1, md5Hex, cacheExpire) == Url2Id(url, t2, md5Hex, cacheExpire) {
      assert pre + tag1 == pre + tag2;
      assert tag1 == (pre + tag1)[|pre|..] && tag2 == (pre + tag2)[|pre|..];
      var a1, a2 := AddHours(TimeBase, b1), AddHours(TimeBase, b2);
      FormatYmdHInjective(a1, a2);
      AddHoursInjective(TimeBase, b1, b2);
    }
  }

  /**
   * The domain part of an id gives the host labels back (without `www` and `com`) when no label
   * holds an underscore: split on `_` and reverse.
   */
  lemma DomainRoundTrip(url: string)
    requires DomainParts(url) != [] && DomainCore(url) != []
    requires forall i :: 0 <= i < |DomainCore(url)| ==> '_' !in DomainCore(url)[i]
    ensures Reverse(Split(DomainReverse(url).value, '_')) == DomainCore(url)
  {
    var core := DomainCore(url);
    var rc := Reverse(core);
    assert forall i :: 0 <= i < |rc| ==> '_' !in rc[i] by {
      forall i | 0 <= i < |rc| ensures '_' !in rc[i] {
        assert rc[i] == core[|core| - 1 - i];
      }
    }
    SplitOfJoin(rc, '_');
    ReverseReverse(core);
  }

  lemma ReverseReverse<T>(s: seq<T>)
    ensures Reverse(Reverse(s)) == s
  {
  }

  /** A URL given with `https://` and no other scheme text inside has its scheme removed and nothing else. */
  lemma StripHttps(rest: string)
    requires !Contains(rest, "https://") && !Contains(rest, "http://")
    ensures WebUtils.StripSchemes("https://" + rest) == rest
  {
    var s := "https://" + rest;
    assert StartsWith(s, "https://");
    assert s[|"https://"|..] == rest;
    assert ReplaceAll(s, "https://", "") == "" + ReplaceAll(rest, "https://", "");
    ReplaceAbsent(rest, "https://", "");
    assert ReplaceAll(s, "https://", "") == rest;
    ReplaceAbsent(rest, "http://", "");
    assert ReplaceAll(ReplaceAll(s, "https://", ""), "http://", "") == rest;
  }

  // ---------------------------------------------------------------------------------------
  // parse

  /** An lxml document: the nodes an xpath selects in a raw page (or the error lxml raises), and the strings an xpath yields under a node. */
  datatype Dom = Dom(select: (string, string) -> Result<seq<nat>>, query: (nat, string) -> seq<string>)

  /** One extracted link, as the JSON object `{'url': ..., 'text': ...}`. */
  datatype LinkItem = LinkItem(url: string, text: string)

  /** The foreign pieces `parse` uses. */
  datatype Tools = Tools(
    generateMarkdown: (string, Option<string>) -> string,
    dom: Dom,
    urljoin: (Option<string>, string) -> string,
    dumpLinks: seq<LinkItem> -> string)

  const TextXpath := "(.//text())[1]"
  const HrefXpath := "(.//@href)[1]"

  /** The element xpath of a link extractor `elem [| text] [| href]`: its first part, stripped. */
  function ElemXpath(extractor: string): string {
    Strip(Split(extractor, '|')[0])
  }

  /** The link one selected element yields: None when its first text or first href is missing or blank. */
  function ItemOf(tools: Tools, base: Option<string>, node: nat): Option<LinkItem> {
    var texts := tools.dom.query(node, TextXpath);
    var hrefs := tools.dom.query(node, HrefXpath);
    if |texts| == 0 || |hrefs| == 0 || Strip(texts[0]) == "" || Strip(hrefs[0]) == "" then None
    else Some(LinkItem(tools.urljoin(base, Strip(hrefs[0])), Strip(texts[0])))
  }

  /** An element yields a link exactly when it has a non-blank first text and first href; the link's text is the stripped first text. */
  lemma ItemOfFacts(tools: Tools, base: Option<string>, node: nat)
    ensures var r := ItemOf(tools, base, node);
      var texts := tools.dom.query(node, TextXpath); var hrefs := tools.dom.query(node, HrefXpath);
      (r.Some? <==> |texts| > 0 && |hrefs| > 0 && Strip(texts[0]) != "" && Strip(hrefs[0]) != "")
      && (r.Some? ==>
            r.value.text == Strip(texts[0]) && |r.value.text| > 0
            && !IsSpace(r.value.text[0]) && !IsSpace(r.value.text[|r.value.text| - 1]))
  {
  }

  /** The link of the i-th selected element, if it has one. */
  function ItemStep(tools: Tools, base: Option<string>, nodes: seq<nat>): nat -> Option<LinkItem> {
    (i: nat) => if i < |nodes| then ItemOf(tools, base, nodes[i]) else None
  }

  /** The links of the first `k` selected elements, in document order. */
  function ItemsUpTo(tools: Tools, base: Option<string>, nodes: seq<nat>, k: nat): (r: seq<LinkItem>)
    requires k <= |nodes|
    ensures |r| <= k
  {
    Gather(ItemStep(tools, base, nodes), k)
  }

  lemma ItemsUpToStep(tools: Tools, base: Option<string>, nodes: seq<nat>, i: nat)
    requires i < |nodes|
    ensures ItemsUpTo(tools, base, nodes, i + 1)
      == ItemsUpTo(tools, base, nodes, i) + (if ItemOf(tools, base, nodes[i]).Some? then [ItemOf(tools, base, nodes[i]).value] else [])
  {
    assert ItemStep(tools, base, nodes)(i) == ItemOf(tools, base, nodes[i]);
  }

  /** Every element with a non-blank text and href yields a link: the links are exactly the good elements, in order. */
  lemma ItemsAllGood(tools: Tools, base: Option<string>, nodes: seq<nat>, k: nat)
    requires k <= |nodes|
    requires forall i :: 0 <= i < k ==> ItemOf(tools, base, nodes[i]).Some?
    ensures |ItemsUpTo(tools, base, nodes, k)| == k
    ensures forall i :: 0 <= i < k ==> ItemsUpTo(tools, base, nodes, k)[i] == ItemOf(tools, base, nodes[i]).value
  {
    GatherAllSome(ItemStep(tools, base, nodes), k);
  }

  function ParseAsLinksSpec(tools: Tools, base: Option<string>, raw: string, extractor: string): Result<seq<LinkItem>> {
    match tools.dom.select(raw, ElemXpath(extractor))
    case Err(e) => Err(e)
    case Ok(nodes) => Ok(ItemsUpTo(tools, base, nodes, |nodes|))
  }

  /** Only the element xpath matters: the text and href parts of the extractor are ignored. */
  lemma LinksIgnoreSubpaths(tools: Tools, base: Option<string>, raw: string, elem: string, rest1: string, rest2: string)
    requires '|' !in elem
    ensures ParseAsLinksSpec(tools, base, raw, elem + "|" + rest1) == ParseAsLinksSpec(tools, base, raw, elem)
    ensures ParseAsLinksSpec(tools, base, raw, elem + "|" + rest1) == ParseAsLinksSpec(tools, base, raw, elem + "|" + rest2)
  {
    ElemXpathFirst(elem, rest1);
    ElemXpathFirst(elem, rest2);
    SplitNoSep(elem, '|');
  }

  lemma ElemXpathFirst(elem: string, rest: string)
    requires '|' !in elem
    ensures ElemXpath(elem + "|" + rest) == Strip(elem)
  {
    assert elem + "|" + rest == elem + ['|'] + rest;
    SplitAround(elem, '|', rest);
    SplitNoSep(elem, '|');
  }

  /** `parse_as_links`: split the extractor, select the elements, keep the ones with a text and an href. */
  method ParseAsLinks(tools: Tools, base: Option<string>, raw: string, extractor: string) returns (r: Result<seq<LinkItem>>)
    ensures r == ParseAsLinksSpec(tools, base, raw, extractor)
  {
    var parts := Split(extractor, '|');
    var elemXpath := Strip(parts[0]);
    var selected := tools.dom.select(raw, elemXpath);
    if selected.Err? {
      return Err(selected.error);
    }
    var nodes := selected.value;
    var links: seq<LinkItem> := [];
    var i := 0;
    while i < |nodes|
      invariant 0 <= i <= |nodes|
      invariant links == ItemsUpTo(tools, base, nodes, i)
    {
      ItemsUpToStep(tools, base, nodes, i);
      var texts := tools.dom.query(nodes[i], TextXpath);
      var hrefs := tools.dom.query(nodes[i], HrefXpath);
      if |texts| == 0 || |hrefs| == 0 || Strip(texts[0]) == "" || Strip(hrefs[0]) == "" {
        assert ItemOf(tools, base, nodes[i]).None?;
        assert links == ItemsUpTo(tools, base, nodes, i + 1);
        i := i + 1;
        continue;
      }
      var item := LinkItem(tools.urljoin(base, Strip(hrefs[0])), Strip(texts[0]));
      assert ItemOf(tools, base, nodes[i]) == Some(item);
      links := links + [item];
      assert links == ItemsUpTo(tools, base, nodes, i + 1);
      i := i + 1;
    }
    r := Ok(links);
  }

  /** `parse_as_markdown`: the generated markdown, stripped of link-heavy lines when asked. */
  function ParseAsMarkdown(opts: Options, tools: Tools, url: Option<string>, raw: string): (r: string)
    ensures opts.stripBoilerplate ==> r == WebUtils.StripBoilerplateSpec(tools.generateMarkdown(raw, url))
    ensures !opts.stripBoilerplate ==> r == tools.generateMarkdown(raw, url)
  {
    var md := tools.generateMarkdown(raw, url);
    if opts.stripBoilerplate then WebUtils.StripBoilerplateSpec(md) else md
  }

  /** `parse`: dispatch on the parser option. */
  function Parse(opts: Options, tools: Tools, url: Option<string>, raw: string): (r: Result<Option<string>>)
    ensures opts.parser == "markdown" ==> r == Ok(Some(ParseAsMarkdown(opts, tools, url, raw)))
    ensures opts.parser == "link_extractor" && opts.linkExtractor.None? ==> r == Err(RuntimeError)
    ensures opts.parser == "link_extractor" && opts.linkExtractor.Some? ==>
      match ParseAsLinksSpec(tools, url, raw, opts.linkExtractor.value)
      case Err(e) => r == Err(e)
      case Ok(items) => r == Ok(Some(tools.dumpLinks(items)))
    ensures opts.parser != "markdown" && opts.parser != "link_extractor" ==> r == Ok(None)
  {
    if opts.parser == "markdown" then Ok(Some(ParseAsMarkdown(opts, tools, url, raw)))
    else if opts.parser == "link_extractor" then
      if opts.linkExtractor.None? then Err(RuntimeError)
      else
        match ParseAsLinksSpec(tools, url, raw, opts.linkExtractor.value)
        case Err(e) => Err(e)
        case Ok(items) => Ok(Some(tools.dumpLinks(items)))
    else Ok(None)
  }

  // ---------------------------------------------------------------------------------------
  // fetch results

  /** What the crawler reports for one URL. */
  datatype CrawlResult = CrawlResult(statusCode: int, url: string, html: string)

  /** The outcome of one crawl: the final URL, empty metadata and the page for status 200, else None. */
  function OutcomeOf(c: CrawlResult): (r: Option<OnlineContent.FetchOutcome>)
    ensures r.Some? <==> c.statusCode == 200
    ensures r.Some? ==> r.value == OnlineContent.FetchOutcome(c.url, Some(map[]), c.html)
  {
    if c.statusCode == 200 then Some(OnlineContent.FetchOutcome(c.url, Some(map[]), c.html)) else None
  }

  /** The result loop at the end of `async_fetch_many`: one outcome per crawl result, in order. */
  method MapResults(results: seq<CrawlResult>) returns (rets: seq<Option<OnlineContent.FetchOutcome>>)
    ensures rets == MapResultsSpec(results)
  {
    rets := [];
    var i := 0;
    while i < |results|
      invariant 0 <= i <= |results|
      invariant |rets| == i
      invariant forall j :: 0 <= j < i ==> rets[j] == OutcomeOf(results[j])
    {
      var result := results[i];
      if result.statusCode == 200 {
        rets := rets + [Some(OnlineContent.FetchOutcome(result.url, Some(map[]), result.html))];
      } else {
        rets := rets + [None];
      }
      i := i + 1;
    }
  }

  /** The outcomes of the crawl results, position by position. */
  function MapResultsSpec(results: seq<CrawlResult>): (r: seq<Option<OnlineContent.FetchOutcome>>)
    ensures |r| == |results|
    ensures forall i :: 0 <= i < |results| ==> r[i] == OutcomeOf(results[i])
  {
    if |results| == 0 then [] else MapResultsSpec(results[..|results| - 1]) + [OutcomeOf(results[|results| - 1])]
  }

  /**
   * The retriever's members as a site of the engine: ids from the clock, no URL for a bare id,
   * and a batch fetch that maps the crawler's results. `crawl` is the browser run.
   */
  function CrawlSite(opts: Options, tools: Tools, elapsedMicros: int, md5Hex: string -> string,
                     crawl: seq<Option<string>> -> seq<CrawlResult>): (s: OnlineContent.Site)
    ensures forall url :: s.url2id(url) == Url2Id(url, elapsedMicros, md5Hex, opts.cacheExpire)
    ensures forall id :: s.id2url(id) == Ok(None)
    ensures forall url, raw :: s.parse(url, raw) == Parse(opts, tools, url, raw)
  {
    OnlineContent.Site(
      url => Url2Id(url, elapsedMicros, md5Hex, opts.cacheExpire),
      id => Ok(None),
      (url, raw) => Parse(opts, tools, url, raw),
      urls => Ok(MapResultsSpec(crawl(urls))))
  }

  /** `list`: always empty. */
  function List(n: int): (r: seq<string>)
    ensures |r| == 0
  {
    []
  }

  /** With `id2url` always None, a bare id that has no cached raw file cannot be retrieved. */
  lemma BareIdNeedsCache(opts: Options, tools: Tools, elapsedMicros: int, md5Hex: string -> string,
                         crawl: seq<Option<string>> -> seq<CrawlResult>,
                         cfg: OnlineContent.Config, codec: OnlineContent.MetaCodec, st: OnlineContent.Scan, ind: nat, id: string)
    requires !StartsWith(id, "http") && OnlineContent.RawKey(id) !in st.store
    ensures OnlineContent.ScanStep(cfg, CrawlSite(opts, tools, elapsedMicros, md5Hex, crawl), codec, st, ind, id) == Err(RuntimeError)
  {
    OnlineContent.UnresolvableNeedsCache(cfg, CrawlSite(opts, tools, elapsedMicros, md5Hex, crawl), codec, st, ind, id);
  }
}
