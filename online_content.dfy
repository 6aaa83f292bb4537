/**
 * The cache-backed retrieval engine shared by every site (`OnlineContent`), and the registry of
 * retriever classes.
 *
 * A site supplies `url2id`, `id2url`, `parse` and a batch fetch; they are the function-valued
 * fields of `Site`. The cache holds, per site id, three files: `<id>.meta` (JSON metadata),
 * `<id>.raw` (the fetched document) and `<id>.parsed` (the parse result).
 */
module OnlineContent {
  import opened Wrappers
  import opened PyStr
  import Storage

  /** A JSON object of metadata; `None` stands for JSON null. */
  type Meta = map<string, Option<string>>

  /** `json.dumps` / `json.loads` on metadata; `loads` fails on text that is not a JSON object. */
  datatype MetaCodec = MetaCodec(dumps: Meta -> string, loads: string -> Result<Meta>)

  /** What one successful fetch yields: the final URL, optional metadata and the raw document. */
  datatype FetchOutcome = FetchOutcome(redirectUrl: string, metadata: Option<Meta>, raw: string)

  /**
   * The members a concrete retriever defines. `parse` may raise (an `Err`) or return None;
   * `fetchMany` returns one entry per URL, None for a URL that could not be fetched.
   */
  datatype Site = Site(
    url2id: string -> Result<string>,
    id2url: string -> Result<Option<string>>,
    parse: (Option<string>, string) -> Result<Option<string>>,
    fetchMany: seq<Option<string>> -> Result<seq<Option<FetchOutcome>>>)

  /** The `force_fetch`, `force_parse` and `update_cache` parameters (defaults False, False, True). */
  datatype Config = Config(forceFetch: bool, forceParse: bool, updateCache: bool)

  const DefaultConfig := Config(false, false, true)

  function RawKey(id: string): string { id + ".raw" }
  function MetaKey(id: string): string { id + ".meta" }
  function ParsedKey(id: string): string { id + ".parsed" }

  /** The three cache files of one id never collide with each other, whatever the ids. */
  lemma SlotKeysDistinct(a: string, b: string)
    ensures RawKey(a) != MetaKey(b) && RawKey(a) != ParsedKey(b) && MetaKey(a) != ParsedKey(b)
  {
    var ra, mb, pb, ma := RawKey(a), MetaKey(b), ParsedKey(b), MetaKey(a);
    assert ra[|ra| - 1] == 'w' && mb[|mb| - 1] == 'a' && pb[|pb| - 1] == 'd' && ma[|ma| - 1] == 'a';
  }

  /**
   * `parse_url_id`: an input starting with `http` is a URL and its id comes from `url2id`;
   * anything else is an id and its URL (possibly None) comes from `id2url`.
   */
  function ParseUrlId(site: Site, input: string): (r: Result<(Option<string>, string)>)
    ensures StartsWith(input, "http") ==>
      (r.Ok? <==> site.url2id(input).Ok?) && (r.Ok? ==> r.value == (Some(input), site.url2id(input).value))
    ensures !StartsWith(input, "http") ==>
      (r.Ok? <==> site.id2url(input).Ok?) && (r.Ok? ==> r.value == (site.id2url(input).value, input))
  {
    if StartsWith(input, "http") then
      match site.url2id(input)
      case Ok(id) => Ok((Some(input), id))
      case Err(e) => Err(e)
    else
      match site.id2url(input)
      case Ok(url) => Ok((url, input))
      case Err(e) => Err(e)
  }

  /** `dict.get(key, default)` on metadata. */
  function MetaGet(m: Meta, key: string, default: Option<string>): Option<string> {
    if key in m then m[key] else default
  }

  /**
   * `load_raw`: the raw file (None when absent) and the decoded metadata; a missing metadata
   * file makes `json.loads(None)` raise TypeError.
   */
  function LoadRawSpec(codec: MetaCodec, store: map<string, string>, id: string): (r: Result<(Meta, Option<string>)>)
    ensures MetaKey(id) !in store ==> r == Err(TypeError)
    ensures r.Ok? ==> MetaKey(id) in store && codec.loads(store[MetaKey(id)]) == Ok(r.value.0)
    ensures r.Ok? ==> (r.value.1.Some? <==> RawKey(id) in store) && (RawKey(id) in store ==> r.value.1 == Some(store[RawKey(id)]))
  {
    var raw := if RawKey(id) in store then Some(store[RawKey(id)]) else None;
    if MetaKey(id) !in store then Err(TypeError)
    else
      match codec.loads(store[MetaKey(id)])
      case Ok(m) => Ok((m, raw))
      case Err(e) => Err(e)
  }

  /** `save`: writes the metadata file, the raw file and the parsed file, each only when it is given. */
  function SaveSlots(codec: MetaCodec, store: map<string, string>, id: string,
                     metadata: Option<Meta>, raw: Option<string>, parsed: Option<string>): (r: map<string, string>)
    ensures forall k :: k != MetaKey(id) && k != RawKey(id) && k != ParsedKey(id) ==>
      (k in r <==> k in store) && (k in r ==> r[k] == store[k])
    ensures metadata.Some? ==> MetaKey(id) in r && r[MetaKey(id)] == codec.dumps(metadata.value)
    ensures raw.Some? ==> RawKey(id) in r && r[RawKey(id)] == raw.value
    ensures parsed.Some? ==> ParsedKey(id) in r && r[ParsedKey(id)] == parsed.value
    ensures metadata.None? ==> (MetaKey(id) in r <==> MetaKey(id) in store) && (MetaKey(id) in store ==> r[MetaKey(id)] == store[MetaKey(id)])
    ensures raw.None? ==> (RawKey(id) in r <==> RawKey(id) in store) && (RawKey(id) in store ==> r[RawKey(id)] == store[RawKey(id)])
    ensures parsed.None? ==> (ParsedKey(id) in r <==> ParsedKey(id) in store) && (ParsedKey(id) in store ==> r[ParsedKey(id)] == store[ParsedKey(id)])
  {
    SlotKeysDistinct(id, id);
    var s1 := if metadata.Some? then store[MetaKey(id) := codec.dumps(metadata.value)] else store;
    var s2 := if raw.Some? then s1[RawKey(id) := raw.value] else s1;
    if parsed.Some? then s2[ParsedKey(id) := parsed.value] else s2
  }

  /** `safe_parse`: the parse result, with any exception turned into None. */
  function SafeParse(site: Site, url: Option<string>, raw: string): (r: Option<string>)
    ensures site.parse(url, raw).Err? ==> r.None?
    ensures site.parse(url, raw).Ok? ==> r == site.parse(url, raw).value
  {
    match site.parse(url, raw)
    case Ok(p) => p
    case Err(_) => None
  }

  /** A queued fetch: the input's position and the URL to fetch for it. */
  datatype Pending = Pending(index: nat, url: Option<string>)

  /** The state of the first loop of `retrieve_many`: cache, results so far, queue, last site id. */
  datatype Scan = Scan(store: map<string, string>, rets: seq<Option<string>>, pending: seq<Pending>, lastId: string)

  datatype ScanResult = ScanResult(state: Scan, error: Option<Error>)

  /** The URL an input resolves to: its own, or else the one recorded in its cached metadata. */
  function ResolveUrl(codec: MetaCodec, store: map<string, string>, url: Option<string>, id: string): (r: Result<Option<string>>)
    ensures url.Some? ==> r == Ok(url)
    ensures url.None? && RawKey(id) !in store ==> r == Err(RuntimeError)
    ensures url.None? && RawKey(id) in store ==>
      (r.Ok? <==> LoadRawSpec(codec, store, id).Ok?)
      && (r.Ok? ==> r.value == MetaGet(LoadRawSpec(codec, store, id).value.0, "url", None))
      && (r.Err? ==> r.error == LoadRawSpec(codec, store, id).error)
  {
    if url.Some? then Ok(url)
    else if RawKey(id) !in store then Err(RuntimeError)
    else
      match LoadRawSpec(codec, store, id)
      case Ok((m, _)) => Ok(MetaGet(m, "url", None))
      case Err(e) => Err(e)
  }

  /** One iteration of the first loop of `retrieve_many` for the input at position `ind`. */
  function ScanStep(cfg: Config, site: Site, codec: MetaCodec, st: Scan, ind: nat, input: string): Result<Scan> {
    match ParseUrlId(site, input)
    case Err(e) => Err(e)
    case Ok((url0, id)) =>
      match ResolveUrl(codec, st.store, url0, id)
      case Err(e) => Err(e)
      case Ok(url) =>
        if cfg.forceFetch || RawKey(id) !in st.store then
          Ok(Scan(st.store, st.rets + [None], st.pending + [Pending(ind, url)], id))
        else if cfg.forceParse || ParsedKey(id) !in st.store then
          match LoadRawSpec(codec, st.store, id)
          case Err(e) => Err(e)
          case Ok((meta, _)) =>
            match site.parse(MetaGet(meta, "redirect_url", url), st.store[RawKey(id)])
            case Err(e) => Err(e)
            case Ok(parsed) =>
              var store := if cfg.updateCache then SaveSlots(codec, st.store, id, None, None, parsed) else st.store;
              Ok(Scan(store, st.rets + [parsed], st.pending, id))
        else
          Ok(Scan(st.store, st.rets + [Some(st.store[ParsedKey(id)])], st.pending, id))
  }

  /** The queue is ordered by position, and every queued position holds a None placeholder. */
  ghost predicate WellQueued(st: Scan) {
    (forall k :: 0 <= k < |st.pending| ==> st.pending[k].index < |st.rets| && st.rets[st.pending[k].index].None?)
    && (forall k, l :: 0 <= k < l < |st.pending| ==> st.pending[k].index < st.pending[l].index)
  }

  /** The first loop of `retrieve_many` run over the first `k` inputs; it stops at the first exception. */
  function ScanUpTo(cfg: Config, site: Site, codec: MetaCodec, store: map<string, string>, inputs: seq<string>, k: nat): (r: ScanResult)
    requires k <= |inputs|
    ensures r.error.None? ==> |r.state.rets| == k && WellQueued(r.state)
    ensures forall q :: 0 <= q < |r.state.pending| ==> r.state.pending[q].index < k
    decreases k
  {
    if k == 0 then ScanResult(Scan(store, [], [], ""), None)
    else
      var prev := ScanUpTo(cfg, site, codec, store, inputs, k - 1);
      if prev.error.Some? then prev
      else
        match ScanStep(cfg, site, codec, prev.state, k - 1, inputs[k - 1])
        case Err(e) => ScanResult(prev.state, Some(e))
        case Ok(next) => ScanResult(next, None)
  }

  /** The cache and results threaded through the second loop of `retrieve_many`. */
  datatype Acc = Acc(store: map<string, string>, rets: seq<Option<string>>)

  /**
   * The metadata saved with a fetched document: the fetched metadata (an empty object when
   * there is none) with `url` added when absent, and `redirect_url` added when the final URL
   * differs from the requested one and it is absent.
   */
  function NormalizedMeta(url: Option<string>, r: FetchOutcome): (m: Meta)
    ensures "url" in m
    ensures r.metadata.Some? && "url" in r.metadata.value ==> m["url"] == r.metadata.value["url"]
    ensures (r.metadata.None? || "url" !in r.metadata.value) ==> m["url"] == url
    ensures url != Some(r.redirectUrl) ==> "redirect_url" in m
    ensures r.metadata.Some? && "redirect_url" in r.metadata.value ==> "redirect_url" in m && m["redirect_url"] == r.metadata.value["redirect_url"]
    ensures "redirect_url" in m && (r.metadata.None? || "redirect_url" !in r.metadata.value) ==> m["redirect_url"] == Some(r.redirectUrl)
    ensures forall k :: k != "url" && k != "redirect_url" ==> (k in m <==> r.metadata.Some? && k in r.metadata.value)
  {
    var m0: Meta := if r.metadata.Some? then r.metadata.value else map[];
    var m1 := if "url" in m0 then m0 else m0["url" := url];
    if url != Some(r.redirectUrl) && "redirect_url" !in m1 then m1["redirect_url" := Some(r.redirectUrl)] else m1
  }

  /** The parse result a fetched document is turned into: None when the fetch failed. */
  function FetchedParse(site: Site, r: Option<FetchOutcome>): Option<string> {
    if r.None? then None else SafeParse(site, Some(r.value.redirectUrl), r.value.raw)
  }

  /** A fetch result that the second loop keeps: fetched, and parsed to a non-empty text. */
  predicate Saves(site: Site, r: Option<FetchOutcome>) {
    r.Some? && FetchedParse(site, r).Some? && FetchedParse(site, r).value != ""
  }

  /** The three files of `id` hold the given metadata (as dumped), raw document and parse. */
  ghost predicate Saved(codec: MetaCodec, store: map<string, string>, id: string, meta: Meta, raw: string, parsed: string) {
    MetaKey(id) in store && store[MetaKey(id)] == codec.dumps(meta)
    && RawKey(id) in store && store[RawKey(id)] == raw
    && ParsedKey(id) in store && store[ParsedKey(id)] == parsed
  }

  /** Every file other than the three of `id` is the same in both stores. */
  ghost predicate SameExcept(a: map<string, string>, b: map<string, string>, id: string) {
    forall key :: key != MetaKey(id) && key != RawKey(id) && key != ParsedKey(id) ==>
      (key in a <==> key in b) && (key in a ==> a[key] == b[key])
  }

  /**
   * One iteration of the second loop: a failed fetch or an empty parse leaves None; otherwise
   * the parse result is stored and, with `update_cache`, saved with its metadata under `lastId`,
   * the site id of the LAST input of the batch (the loop reads a variable left over from the first loop).
   */
  function FetchStep(cfg: Config, site: Site, codec: MetaCodec, lastId: string, acc: Acc, p: Pending, r: Option<FetchOutcome>): (a: Acc)
    requires p.index < |acc.rets|
    ensures |a.rets| == |acc.rets|
    ensures !Saves(site, r) ==> a == Acc(acc.store, acc.rets[p.index := None])
    ensures Saves(site, r) ==> a.rets == acc.rets[p.index := FetchedParse(site, r)]
    ensures Saves(site, r) && cfg.updateCache ==>
      Saved(codec, a.store, lastId, NormalizedMeta(p.url, r.value), r.value.raw, FetchedParse(site, r).value)
    ensures !cfg.updateCache ==> a.store == acc.store
    ensures SameExcept(a.store, acc.store, lastId)
  {
    var parsed := FetchedParse(site, r);
    if parsed.None? || parsed.value == "" then Acc(acc.store, acc.rets[p.index := None])
    else
      var store := if cfg.updateCache then SaveSlots(codec, acc.store, lastId, Some(NormalizedMeta(p.url, r.value)), Some(r.value.raw), parsed) else acc.store;
      Acc(store, acc.rets[p.index := parsed])
  }

  /** The position of the last of the first `k` fetch results that the second loop keeps, if any. */
  function LastSaved(site: Site, results: seq<Option<FetchOutcome>>, k: nat): (q: Option<nat>)
    requires k <= |results|
    ensures q.Some? ==> q.value < k && Saves(site, results[q.value])
    ensures q.Some? ==> forall j :: q.value < j < k ==> !Saves(site, results[j])
    ensures q.None? ==> forall j :: 0 <= j < k ==> !Saves(site, results[j])
    decreases k
  {
    if k == 0 then None
    else if Saves(site, results[k - 1]) then Some(k - 1)
    else LastSaved(site, results, k - 1)
  }

  /**
   * The second loop of `retrieve_many` over the first `k` (queued entry, fetch result) pairs.
   * With `update_cache`, the three files of `lastId` end up holding the LAST kept fetch (each
   * kept fetch overwrites the previous one), and the cache is untouched when no fetch is kept.
   */
  function FetchUpTo(cfg: Config, site: Site, codec: MetaCodec, lastId: string, acc0: Acc,
                     pending: seq<Pending>, results: seq<Option<FetchOutcome>>, k: nat): (a: Acc)
    requires k <= |pending| && k <= |results|
    requires forall q :: 0 <= q < |pending| ==> pending[q].index < |acc0.rets|
    ensures |a.rets| == |acc0.rets|
    ensures LastSaved(site, results, k).None? || !cfg.updateCache ==> a.store == acc0.store
    ensures cfg.updateCache && LastSaved(site, results, k).Some? ==>
      var q := LastSaved(site, results, k).value;
      Saved(codec, a.store, lastId, NormalizedMeta(pending[q].url, results[q].value), results[q].value.raw,
            FetchedParse(site, results[q]).value)
    decreases k
  {
    if k == 0 then acc0
    else FetchStep(cfg, site, codec, lastId, FetchUpTo(cfg, site, codec, lastId, acc0, pending, results, k - 1), pending[k - 1], results[k - 1])
  }

  function PendingUrls(pending: seq<Pending>): (urls: seq<Option<string>>)
    ensures |urls| == |pending|
    ensures forall q :: 0 <= q < |pending| ==> urls[q] == pending[q].url
  {
    if |pending| == 0 then [] else PendingUrls(pending[..|pending| - 1]) + [pending[|pending| - 1].url]
  }

  /** The cache after a call, and its results or the exception it raised. */
  datatype Outcome = Outcome(store: map<string, string>, result: Result<seq<Option<string>>>)

  /**
   * `retrieve_many`: resolve every input and serve it from the cache, or queue it; fetch the
   * queue in one batch (pairing queue and results as `zip` does); parse and save what came back.
   */
  function RetrieveManySpec(cfg: Config, site: Site, codec: MetaCodec, store: map<string, string>, inputs: seq<string>): Outcome {
    var sr := ScanUpTo(cfg, site, codec, store, inputs, |inputs|);
    if sr.error.Some? then Outcome(sr.state.store, Err(sr.error.value))
    else if |sr.state.pending| == 0 then Outcome(sr.state.store, Ok(sr.state.rets))
    else
      match site.fetchMany(PendingUrls(sr.state.pending))
      case Err(e) => Outcome(sr.state.store, Err(e))
      case Ok(results) =>
        var n := Min(|sr.state.pending|, |results|);
        var a := FetchUpTo(cfg, site, codec, sr.state.lastId, Acc(sr.state.store, sr.state.rets), sr.state.pending, results, n);
        Outcome(a.store, Ok(a.rets))
  }

  /** `retrieve`: the single result of `retrieve_many` on a one-element batch. */
  function RetrieveSpec(cfg: Config, site: Site, codec: MetaCodec, store: map<string, string>, input: string): (r: (map<string, string>, Result<Option<string>>))
    ensures var o := RetrieveManySpec(cfg, site, codec, store, [input]);
      r.0 == o.store && (r.1.Ok? <==> o.result.Ok?)
      && (o.result.Ok? ==> |o.result.value| == 1 && r.1.value == o.result.value[0])
      && (o.result.Err? ==> r.1.error == o.result.error)
  {
    RetrieveManyLength(cfg, site, codec, store, [input]);
    var o := RetrieveManySpec(cfg, site, codec, store, [input]);
    match o.result
    case Ok(rets) => (o.store, Ok(rets[0]))
    case Err(e) => (o.store, Err(e))
  }

  // ---------------------------------------------------------------------------------------
  // Properties of retrieve_many

  /** A successful call returns exactly one result per input. */
  lemma RetrieveManyLength(cfg: Config, site: Site, codec: MetaCodec, store: map<string, string>, inputs: seq<string>)
    ensures var o := RetrieveManySpec(cfg, site, codec, store, inputs);
      o.result.Ok? ==> |o.result.value| == |inputs|
  {
  }

  /** An input is queued for fetching exactly when `force_fetch` is set or its raw file is missing. */
  lemma ScanQueuesIff(cfg: Config, site: Site, codec: MetaCodec, st: Scan, ind: nat, input: string)
    requires ScanStep(cfg, site, codec, st, ind, input).Ok?
    ensures var id := ParseUrlId(site, input).value.1;
      var next := ScanStep(cfg, site, codec, st, ind, input).value;
      (|next.pending| == |st.pending| + 1 <==> cfg.forceFetch || RawKey(id) !in st.store)
      && (|next.pending| == |st.pending| + 1 ==> next.rets == st.rets + [None] && next.store == st.store)
      && (|next.pending| != |st.pending| + 1 ==> next.pending == st.pending)
  {
  }

  /**
   * With neither flag and both raw and parsed files cached, the parsed file is returned and
   * nothing is written; this holds for a URL and for a bare id whose cached metadata can be read.
   */
  lemma CacheHit(cfg: Config, site: Site, codec: MetaCodec, st: Scan, ind: nat, input: string)
    requires !cfg.forceFetch && !cfg.forceParse
    requires ParseUrlId(site, input).Ok?
    requires ResolveUrl(codec, st.store, ParseUrlId(site, input).value.0, ParseUrlId(site, input).value.1).Ok?
    requires RawKey(ParseUrlId(site, input).value.1) in st.store && ParsedKey(ParseUrlId(site, input).value.1) in st.store
    ensures var id := ParseUrlId(site, input).value.1;
      ScanStep(cfg, site, codec, st, ind, input) == Ok(Scan(st.store, st.rets + [Some(st.store[ParsedKey(id)])], st.pending, id))
  {
  }

  /** Re-parsing a cached raw document writes the parsed file only, and only with `update_cache`. */
  lemma ReparseWritesParsedOnly(cfg: Config, site: Site, codec: MetaCodec, st: Scan, ind: nat, input: string)
    requires ScanStep(cfg, site, codec, st, ind, input).Ok?
    ensures var id := ParseUrlId(site, input).value.1;
      var next := ScanStep(cfg, site, codec, st, ind, input).value;
      forall k :: k != ParsedKey(id) ==> (k in next.store <==> k in st.store) && (k in next.store ==> next.store[k] == st.store[k])
    ensures !cfg.updateCache ==> ScanStep(cfg, site, codec, st, ind, input).value.store == st.store
  {
  }

  /**
   * A cached raw document without a cached parse (or with `force_parse`) is parsed at the
   * metadata's `redirect_url`, defaulting to the input's URL. That parse is the input's result,
   * nothing is queued, and with `update_cache` a non-None parse is written to the parsed file,
   * the only file written. A raising parse or unreadable metadata raises.
   */
  lemma Reparse(cfg: Config, site: Site, codec: MetaCodec, st: Scan, ind: nat, input: string)
    requires ParseUrlId(site, input).Ok?
    requires ResolveUrl(codec, st.store, ParseUrlId(site, input).value.0, ParseUrlId(site, input).value.1).Ok?
    requires !cfg.forceFetch && RawKey(ParseUrlId(site, input).value.1) in st.store
    requires cfg.forceParse || ParsedKey(ParseUrlId(site, input).value.1) !in st.store
    ensures var (url0, id) := ParseUrlId(site, input).value;
      LoadRawSpec(codec, st.store, id).Err? ==> ScanStep(cfg, site, codec, st, ind, input) == Err(LoadRawSpec(codec, st.store, id).error)
    ensures var (url0, id) := ParseUrlId(site, input).value;
      var url := ResolveUrl(codec, st.store, url0, id).value;
      LoadRawSpec(codec, st.store, id).Ok? ==>
        var parsed := site.parse(MetaGet(LoadRawSpec(codec, st.store, id).value.0, "redirect_url", url), st.store[RawKey(id)]);
        (parsed.Err? ==> ScanStep(cfg, site, codec, st, ind, input) == Err(parsed.error))
        && (parsed.Ok? ==>
              ScanStep(cfg, site, codec, st, ind, input) ==
              Ok(Scan(if cfg.updateCache && parsed.value.Some? then st.store[ParsedKey(id) := parsed.value.value] else st.store,
                      st.rets + [parsed.value], st.pending, id)))
  {
    var (url0, id) := ParseUrlId(site, input).value;
    SlotKeysDistinct(id, id);
  }

  /** An input that is neither a URL nor resolvable to one needs its raw file cached, else RuntimeError. */
  lemma UnresolvableNeedsCache(cfg: Config, site: Site, codec: MetaCodec, st: Scan, ind: nat, input: string)
    requires ParseUrlId(site, input).Ok? && ParseUrlId(site, input).value.0.None?
    requires RawKey(ParseUrlId(site, input).value.1) !in st.store
    ensures ScanStep(cfg, site, codec, st, ind, input) == Err(RuntimeError)
  {
  }

  /** A failed fetch or an empty parse leaves None and writes nothing. */
  lemma FailedFetchWritesNothing(cfg: Config, site: Site, codec: MetaCodec, lastId: string, acc: Acc, p: Pending, r: Option<FetchOutcome>)
    requires p.index < |acc.rets|
    requires FetchedParse(site, r).None? || FetchedParse(site, r).value == ""
    ensures FetchStep(cfg, site, codec, lastId, acc, p, r) == Acc(acc.store, acc.rets[p.index := None])
  {
  }

  lemma {:induction false} ScanNoCacheNoWrite(cfg: Config, site: Site, codec: MetaCodec, store: map<string, string>, inputs: seq<string>, k: nat)
    requires k <= |inputs| && !cfg.updateCache
    ensures ScanUpTo(cfg, site, codec, store, inputs, k).state.store == store
    decreases k
  {
    if k > 0 {
      ScanNoCacheNoWrite(cfg, site, codec, store, inputs, k - 1);
      var prev := ScanUpTo(cfg, site, codec, store, inputs, k - 1);
      ScanStepNoWrite(cfg, site, codec, prev.state, k - 1, inputs[k - 1]);
    }
  }

  /** Without `update_cache` one pass of the first loop keeps the cache. */
  lemma ScanStepNoWrite(cfg: Config, site: Site, codec: MetaCodec, st: Scan, ind: nat, input: string)
    requires !cfg.updateCache
    ensures ScanStep(cfg, site, codec, st, ind, input).Ok? ==> ScanStep(cfg, site, codec, st, ind, input).value.store == st.store
  {
  }

  lemma {:induction false} FetchNoCacheNoWrite(cfg: Config, site: Site, codec: MetaCodec, lastId: string, acc0: Acc,
                                               pending: seq<Pending>, results: seq<Option<FetchOutcome>>, k: nat)
    requires k <= |pending| && k <= |results|
    requires forall q :: 0 <= q < |pending| ==> pending[q].index < |acc0.rets|
    requires !cfg.updateCache
    ensures FetchUpTo(cfg, site, codec, lastId, acc0, pending, results, k).store == acc0.store
    decreases k
  {
    if k > 0 {
      FetchNoCacheNoWrite(cfg, site, codec, lastId, acc0, pending, results, k - 1);
    }
  }

  /** Without `update_cache` the cache is never written. */
  lemma NoUpdateCacheNoWrite(cfg: Config, site: Site, codec: MetaCodec, store: map<string, string>, inputs: seq<string>)
    requires !cfg.updateCache
    ensures RetrieveManySpec(cfg, site, codec, store, inputs).store == store
  {
    ScanNoCacheNoWrite(cfg, site, codec, store, inputs, |inputs|);
    var sr := ScanUpTo(cfg, site, codec, store, inputs, |inputs|);
    if sr.error.None? && |sr.state.pending| > 0 {
      match site.fetchMany(PendingUrls(sr.state.pending))
      case Err(_) =>
      case Ok(results) =>
        FetchNoCacheNoWrite(cfg, site, codec, sr.state.lastId, Acc(sr.state.store, sr.state.rets), sr.state.pending, results,
                            Min(|sr.state.pending|, |results|));
    }
  }

  /**
   * The second loop writes only the three files of `lastId`, however many inputs were fetched;
   * with `update_cache` and at least one kept fetch they hold the metadata, raw document and
   * parse of the last one, whichever input it belonged to.
   */
  lemma {:induction false} FetchWritesOnlyLastId(cfg: Config, site: Site, codec: MetaCodec, lastId: string, acc0: Acc,
                                                 pending: seq<Pending>, results: seq<Option<FetchOutcome>>, k: nat)
    requires k <= |pending| && k <= |results|
    requires forall q :: 0 <= q < |pending| ==> pending[q].index < |acc0.rets|
    ensures var a := FetchUpTo(cfg, site, codec, lastId, acc0, pending, results, k);
      forall key :: key != MetaKey(lastId) && key != RawKey(lastId) && key != ParsedKey(lastId) ==>
        (key in a.store <==> key in acc0.store) && (key in a.store ==> a.store[key] == acc0.store[key])
    ensures var a := FetchUpTo(cfg, site, codec, lastId, acc0, pending, results, k);
      cfg.updateCache && LastSaved(site, results, k).Some? ==>
        var q := LastSaved(site, results, k).value;
        Saved(codec, a.store, lastId, NormalizedMeta(pending[q].url, results[q].value), results[q].value.raw,
              FetchedParse(site, results[q]).value)
    decreases k
  {
    if k > 0 {
      FetchWritesOnlyLastId(cfg, site, codec, lastId, acc0, pending, results, k - 1);
    }
  }

  /**
   * After the second loop, a position that was not queued keeps its first-loop result, and a
   * queued position holds None or the non-empty parse of its OWN fetch result.
   */
  lemma {:induction false} FetchResultsInPlace(cfg: Config, site: Site, codec: MetaCodec, lastId: string, acc0: Acc,
                                               pending: seq<Pending>, results: seq<Option<FetchOutcome>>, k: nat)
    requires k <= |pending| && k <= |results|
    requires forall q :: 0 <= q < |pending| ==> pending[q].index < |acc0.rets|
    requires forall q, l :: 0 <= q < l < |pending| ==> pending[q].index < pending[l].index
    ensures var a := FetchUpTo(cfg, site, codec, lastId, acc0, pending, results, k);
      forall j :: 0 <= j < |acc0.rets| ==>
        ((forall q :: 0 <= q < k ==> pending[q].index != j) ==> a.rets[j] == acc0.rets[j])
        && (forall q :: 0 <= q < k && pending[q].index == j ==>
              a.rets[j].None? || (a.rets[j] == FetchedParse(site, results[q]) && a.rets[j].value != ""))
    decreases k
  {
    if k > 0 {
      FetchResultsInPlace(cfg, site, codec, lastId, acc0, pending, results, k - 1);
    }
  }

  /** `fetch_many` of the base class maps `self.fetch_safe`, which does not exist: it always raises AttributeError. */
  function ThreadPoolFetchMany(urls: seq<Option<string>>): (r: Result<seq<Option<FetchOutcome>>>)
    ensures r == Err(AttributeError)
  {
    Err(AttributeError)
  }

  /** `safe_fetch`: the result of `fetch`, or None when it raises. */
  function SafeFetch(fetch: Option<string> -> Result<FetchOutcome>, url: Option<string>): Option<FetchOutcome> {
    match fetch(url)
    case Ok(outcome) => Some(outcome)
    case Err(_) => None
  }

  /**
   * `fetch_many` as evidently intended, mapping the existing `safe_fetch`: it never raises and
   * returns, for each URL in order, the outcome of its own fetch or None when that fetch raised.
   */
  function SafeFetchMany(fetch: Option<string> -> Result<FetchOutcome>, urls: seq<Option<string>>): (r: Result<seq<Option<FetchOutcome>>>)
    ensures r.Ok? && |r.value| == |urls|
    ensures forall q :: 0 <= q < |urls| ==>
      (r.value[q].None? <==> fetch(urls[q]).Err?) && (r.value[q].Some? ==> fetch(urls[q]) == Ok(r.value[q].value))
  {
    Ok(seq(|urls|, q requires 0 <= q < |urls| => SafeFetch(fetch, urls[q])))
  }

  /** With the intended `fetch_many`, a call whose inputs all resolve succeeds, one result per input. */
  lemma SafeRetrieveSucceeds(cfg: Config, site: Site, codec: MetaCodec, store: map<string, string>, inputs: seq<string>,
                             fetch: Option<string> -> Result<FetchOutcome>)
    requires site.fetchMany == (urls => SafeFetchMany(fetch, urls))
    requires ScanUpTo(cfg, site, codec, store, inputs, |inputs|).error.None?
    ensures var o := RetrieveManySpec(cfg, site, codec, store, inputs); o.result.Ok? && |o.result.value| == |inputs|
  {
    RetrieveManyLength(cfg, site, codec, store, inputs);
    var sr := ScanUpTo(cfg, site, codec, store, inputs, |inputs|);
    assert site.fetchMany(PendingUrls(sr.state.pending)) == SafeFetchMany(fetch, PendingUrls(sr.state.pending));
  }

  /** So a retriever that keeps the base `fetch_many` fails with AttributeError whenever an input must be fetched. */
  lemma ThreadPoolRetrieveFails(cfg: Config, site: Site, codec: MetaCodec, store: map<string, string>, inputs: seq<string>)
    requires site.fetchMany == ThreadPoolFetchMany
    requires ScanUpTo(cfg, site, codec, store, inputs, |inputs|).error.None?
    requires |ScanUpTo(cfg, site, codec, store, inputs, |inputs|).state.pending| > 0
    ensures RetrieveManySpec(cfg, site, codec, store, inputs).result == Err(AttributeError)
  {
  }

  // ---------------------------------------------------------------------------------------
  // The engine as a class

  /** An `OnlineContent` retriever: its name, description, site members, flags and web_cache store. */
  class OnlineContent {
    const name: string
    const description: string
    const site: Site
    const codec: MetaCodec
    const cfg: Config
    const storage: Storage.ContentStorageFile

    /** The store is `get_storage('web_cache', name)` holding `existing`. */
    constructor (name: string, description: string, site: Site, codec: MetaCodec, cfg: Config,
                 baseDir: string, existing: map<string, string>)
      ensures this.name == name && this.description == description
      ensures this.site == site && this.codec == codec && this.cfg == cfg
      ensures fresh(storage)
      ensures storage.storagePath == Storage.StoragePath(Storage.PathJoin(baseDir, "web_cache"), Some(name))
      ensures storage.files == existing
    {
      this.name := name;
      this.description := description;
      this.site := site;
      this.codec := codec;
      this.cfg := cfg;
      storage := new Storage.ContentStorageFile(Storage.PathJoin(baseDir, "web_cache"), Some(name), existing);
    }

    method LoadRaw(id: string) returns (r: Result<(Meta, Option<string>)>)
      ensures r == LoadRawSpec(codec, storage.files, id)
    {
      var raw := storage.Load(RawKey(id));
      var metaText := storage.Load(MetaKey(id));
      if metaText.None? {
        return Err(TypeError);
      }
      match codec.loads(metaText.value)
      case Ok(m) => r := Ok((m, raw));
      case Err(e) => r := Err(e);
    }

    method Save(id: string, metadata: Option<Meta>, raw: Option<string>, parsed: Option<string>)
      modifies storage
      ensures storage.files == SaveSlots(codec, old(storage.files), id, metadata, raw, parsed)
    {
      if metadata.Some? {
        storage.Save(MetaKey(id), codec.dumps(metadata.value));
      }
      if raw.Some? {
        storage.Save(RawKey(id), raw.value);
      }
      if parsed.Some? {
        storage.Save(ParsedKey(id), parsed.value);
      }
    }

    /** One iteration of the first loop, reading and writing the store. */
    method ScanOne(rets: seq<Option<string>>, pending: seq<Pending>, lastId: string, ind: nat, input: string) returns (r: Result<Scan>)
      modifies storage
      ensures r == ScanStep(cfg, site, codec, Scan(old(storage.files), rets, pending, lastId), ind, input)
      ensures r.Ok? ==> storage.files == r.value.store
      ensures r.Err? ==> storage.files == old(storage.files)
    {
      var parsedId := ParseUrlId(site, input);
      if parsedId.Err? {
        return Err(parsedId.error);
      }
      var (url0, id) := parsedId.value;
      var url := url0;
      if url.None? {
        var hasRaw := storage.Has(RawKey(id));
        if !hasRaw {
          return Err(RuntimeError);
        }
        var loaded := LoadRaw(id);
        if loaded.Err? {
          return Err(loaded.error);
        }
        url := MetaGet(loaded.value.0, "url", None);
      }
      var hasRaw := storage.Has(RawKey(id));
      if cfg.forceFetch || !hasRaw {
        return Ok(Scan(storage.files, rets + [None], pending + [Pending(ind, url)], id));
      }
      var hasParsed := storage.Has(ParsedKey(id));
      if cfg.forceParse || !hasParsed {
        var loaded := LoadRaw(id);
        if loaded.Err? {
          return Err(loaded.error);
        }
        var raw := storage.Load(RawKey(id));
        var parsed := site.parse(MetaGet(loaded.value.0, "redirect_url", url), raw.value);
        if parsed.Err? {
          return Err(parsed.error);
        }
        if cfg.updateCache {
          Save(id, None, None, parsed.value);
        }
        return Ok(Scan(storage.files, rets + [parsed.value], pending, id));
      }
      var cached := storage.Load(ParsedKey(id));
      r := Ok(Scan(storage.files, rets + [cached], pending, id));
    }

    /** One iteration of the second loop. */
    method FetchOne(lastId: string, rets: seq<Option<string>>, p: Pending, fetched: Option<FetchOutcome>) returns (rets': seq<Option<string>>)
      requires p.index < |rets|
      modifies storage
      ensures Acc(storage.files, rets') == FetchStep(cfg, site, codec, lastId, Acc(old(storage.files), rets), p, fetched)
    {
      if fetched.None? {
        return rets[p.index := None];
      }
      var parsed := SafeParse(site, Some(fetched.value.redirectUrl), fetched.value.raw);
      if parsed.None? || parsed.value == "" {
        return rets[p.index := None];
      }
      var metadata := NormalizedMeta(p.url, fetched.value);
      if cfg.updateCache {
        Save(lastId, Some(metadata), Some(fetched.value.raw), parsed);
      }
      rets' := rets[p.index := parsed];
    }

    /** The first loop of `retrieve_many`. */
    method ScanAll(inputs: seq<string>) returns (st: Scan, err: Option<Error>)
      modifies storage
      ensures ScanUpTo(cfg, site, codec, old(storage.files), inputs, |inputs|) == ScanResult(st, err)
      ensures storage.files == st.store
    {
      ghost var store0 := storage.files;
      var rets: seq<Option<string>> := [];
      var pending: seq<Pending> := [];
      var lastId := "";
      var i := 0;
      while i < |inputs|
        invariant 0 <= i <= |inputs|
        invariant ScanUpTo(cfg, site, codec, store0, inputs, i) == ScanResult(Scan(storage.files, rets, pending, lastId), None)
      {
        var step := ScanOne(rets, pending, lastId, i, inputs[i]);
        if step.Err? {
          assert ScanUpTo(cfg, site, codec, store0, inputs, i + 1) == ScanResult(Scan(storage.files, rets, pending, lastId), Some(step.error));
          ScanStopsAtError(cfg, site, codec, store0, inputs, i + 1);
          return Scan(storage.files, rets, pending, lastId), Some(step.error);
        }
        rets, pending, lastId := step.value.rets, step.value.pending, step.value.lastId;
        i := i + 1;
      }
      st, err := Scan(storage.files, rets, pending, lastId), None;
    }

    /** The second loop of `retrieve_many`, over the pairs `zip` forms. */
    method FetchAll(lastId: string, rets0: seq<Option<string>>, pending: seq<Pending>, results: seq<Option<FetchOutcome>>)
      returns (rets: seq<Option<string>>)
      requires forall q :: 0 <= q < |pending| ==> pending[q].index < |rets0|
      modifies storage
      ensures Acc(storage.files, rets) == FetchUpTo(cfg, site, codec, lastId, Acc(old(storage.files), rets0), pending, results, Min(|pending|, |results|))
    {
      ghost var acc0 := Acc(storage.files, rets0);
      rets := rets0;
      var n := Min(|pending|, |results|);
      var k := 0;
      while k < n
        invariant 0 <= k <= n
        invariant |rets| == |rets0|
        invariant FetchUpTo(cfg, site, codec, lastId, acc0, pending, results, k) == Acc(storage.files, rets)
      {
        rets := FetchOne(lastId, rets, pending[k], results[k]);
        k := k + 1;
      }
    }

    /** `retrieve_many`. */
    method RetrieveMany(inputs: seq<string>) returns (r: Result<seq<Option<string>>>)
      modifies storage
      ensures Outcome(storage.files, r) == RetrieveManySpec(cfg, site, codec, old(storage.files), inputs)
    {
      var st, err := ScanAll(inputs);
      if err.Some? {
        return Err(err.value);
      }
      if |st.pending| == 0 {
        return Ok(st.rets);
      }
      var fetched := site.fetchMany(PendingUrls(st.pending));
      if fetched.Err? {
        return Err(fetched.error);
      }
      var rets := FetchAll(st.lastId, st.rets, st.pending, fetched.value);
      r := Ok(rets);
    }

    /** `retrieve`. */
    method Retrieve(input: string) returns (r: Result<Option<string>>)
      modifies storage
      ensures (storage.files, r) == RetrieveSpec(cfg, site, codec, old(storage.files), input)
    {
      var many := RetrieveMany([input]);
      RetrieveManyLength(cfg, site, codec, old(storage.files), [input]);
      match many
      case Ok(rets) => r := Ok(rets[0]);
      case Err(e) => r := Err(e);
    }
  }

  /** Once the first loop has raised, the remaining inputs change nothing. */
  lemma {:induction false} ScanStopsAtError(cfg: Config, site: Site, codec: MetaCodec, store: map<string, string>, inputs: seq<string>, k: nat)
    requires k <= |inputs|
    requires ScanUpTo(cfg, site, codec, store, inputs, k).error.Some?
    ensures ScanUpTo(cfg, site, codec, store, inputs, |inputs|) == ScanUpTo(cfg, site, codec, store, inputs, k)
    decreases |inputs| - k
  {
    if k < |inputs| {
      ScanStopsAtError(cfg, site, codec, store, inputs, k + 1);
    }
  }

  // ---------------------------------------------------------------------------------------
  // The registry of retriever classes

  /** A retriever class: its name and whether it derives from OnlineContent. */
  datatype RetrieverClass = RetrieverClass(className: string, isOnlineContent: bool)

  /** What `get_online_retriever` constructs: the class applied to the given parameters. */
  datatype Instance = Instance(cls: RetrieverClass, params: map<string, string>)

  /** `all_online_retrievers`: a dict from name to class; `names` is its insertion order. */
  class Registry {
    var retrievers: map<string, RetrieverClass>
    var names: seq<string>

    ghost predicate Valid()
      reads this
    {
      (forall n :: n in retrievers <==> n in names)
      && (forall i, j :: 0 <= i < j < |names| ==> names[i] != names[j])
    }

    constructor ()
      ensures Valid() && retrievers == map[] && names == []
    {
      retrievers := map[];
      names := [];
    }

    /** `add_online_retriever`: only OnlineContent subclasses, and each name once (AssertionError otherwise). */
    method Add(name: string, cls: RetrieverClass) returns (r: Result<()>)
      requires Valid()
      modifies this
      ensures Valid()
      ensures r.Ok? <==> cls.isOnlineContent && name !in old(retrievers)
      ensures r.Err? ==> r.error == AssertionError && retrievers == old(retrievers) && names == old(names)
      ensures r.Ok? ==> retrievers == old(retrievers)[name := cls] && names == old(names) + [name]
    {
      if !cls.isOnlineContent || name in retrievers {
        return Err(AssertionError);
      }
      retrievers := retrievers[name := cls];
      names := names + [name];
      r := Ok(());
    }

    /** `get_online_retriever`: RuntimeError for an unknown name, else the class constructed with the parameters. */
    method Get(name: string, params: map<string, string>) returns (r: Result<Instance>)
      ensures name !in retrievers ==> r == Err(RuntimeError)
      ensures name in retrievers ==> r == Ok(Instance(retrievers[name], params))
    {
      if name !in retrievers {
        return Err(RuntimeError);
      }
      r := Ok(Instance(retrievers[name], params));
    }

    /** `list_online_retrievers`: every registered name once, in registration order. */
    method List() returns (r: seq<string>)
      requires Valid()
      ensures r == names
      ensures forall n :: n in r <==> n in retrievers
      ensures forall i, j :: 0 <= i < j < |r| ==> r[i] != r[j]
    {
      r := names;
    }
  }
}
