/**
 * The first version of the news-broadcast retriever (`web/mrxwlb.py`). Its `url2id` and
 * `id2url` are the same expressions as those of the current retriever, so they are `Mrxwlb.Url2Id`
 * and `Mrxwlb.Id2Url`; `fetch` resolves its input itself and fetches the page over HTTP, here a
 * parameter `get` from URL to response body (or the exception it raised).
 */
module LegacyMrxwlb {
  import opened Wrappers
  import opened PyStr
  import Mrxwlb
  import LegacyOnlineContent

  /** `parse_url_id` with this retriever's `url2id` and `id2url`. */
  function ParseUrlId(input: string): Result<(string, string)> {
    LegacyOnlineContent.ParseUrlId(Mrxwlb.Url2Id, Mrxwlb.Id2Url, input)
  }

  /** `fetch`: the resolved URL and id, empty metadata, and the body fetched from that URL. */
  function Fetch(get: string -> Result<string>, input: string): (r: Result<LegacyOnlineContent.Fetched>)
    ensures ParseUrlId(input).Err? ==> r == Err(ParseUrlId(input).error)
    ensures ParseUrlId(input).Ok? ==>
              var (url, id) := ParseUrlId(input).value;
              (r.Ok? <==> get(url).Ok?)
              && (r.Ok? ==> r.value == LegacyOnlineContent.Fetched(url, id, Some(map[]), get(url).value))
              && (r.Err? ==> r.error == get(url).error)
  {
    match ParseUrlId(input)
    case Err(e) => Err(e)
    case Ok((url, id)) =>
      match get(url)
      case Err(e) => Err(e)
      case Ok(raw) => Ok(LegacyOnlineContent.Fetched(url, id, Some(map[]), raw))
  }

  /** `parse`: the text of the `news-content` element (found by `find`), or "" when there is none. */
  function Parse(find: string -> Option<string>, raw: string): (r: Result<Option<string>>)
    ensures r.Ok? && r.value.Some?
    ensures find(raw).None? ==> r.value.value == ""
    ensures find(raw).Some? ==> r.value.value == find(raw).value
  {
    Ok(Some(if find(raw).Some? then find(raw).value else ""))
  }

  /** The retriever's abstract members. */
  function Site(get: string -> Result<string>, find: string -> Option<string>): LegacyOnlineContent.Site {
    LegacyOnlineContent.Site(Mrxwlb.Url2Id, Mrxwlb.Id2Url, input => Fetch(get, input), raw => Parse(find, raw))
  }

  /** Fetching a date id asks for the page of that date and keeps the id. */
  lemma FetchById(get: string -> Result<string>, id: string)
    requires !StartsWith(id, "http") && Mrxwlb.Id2Url(id).Ok?
    requires get(Mrxwlb.BaseUrl + id + "/").Ok?
    ensures Fetch(get, id) == Ok(LegacyOnlineContent.Fetched(Mrxwlb.BaseUrl + id + "/", id, Some(map[]), get(Mrxwlb.BaseUrl + id + "/").value))
  {
  }

  /** Fetching a page URL keeps that URL and takes the id from its last segment. */
  lemma FetchByUrl(get: string -> Result<string>, url: string)
    requires StartsWith(url, Mrxwlb.BaseUrl) && get(url).Ok?
    ensures var r := Fetch(get, url);
      r.Ok? && r.value.url == url && Mrxwlb.Url2Id(url) == Ok(r.value.id) && '/' !in r.value.id
      && r.value.metadata == Some(map[]) && r.value.raw == get(url).value
  {
    assert StartsWith(Mrxwlb.BaseUrl, "http") by {
      var b := Mrxwlb.BaseUrl;
      assert b[0] == 'h' && b[1] == 't' && b[2] == 't' && b[3] == 'p';
      assert b[..4] == "http";
    }
    StartsWithTrans(url, Mrxwlb.BaseUrl, "http");
    Mrxwlb.Url2IdSegment(url);
  }

  /** A fetched id and URL always resolve to each other again. */
  lemma FetchedIdsAgree(get: string -> Result<string>, input: string)
    requires Fetch(get, input).Ok?
    requires '/' !in input || StartsWith(input, "http")
    ensures var f := Fetch(get, input).value;
      Mrxwlb.Url2Id(f.url) == Ok(f.id)
  {
    if !StartsWith(input, "http") {
      Mrxwlb.IdRoundTrip(input);
    }
  }
}
