/**
 * The daily news-broadcast retriever (`mrxwlb`): ids are the last path segment of a page URL
 * under the site's base URL, normally an eight-digit `YYYYMMDD` date, and `list` names the pages
 * of consecutive days.
 */
module Mrxwlb {
  import opened Wrappers
  import opened PyStr
  import opened Calendar

  const Name := "mrxwlb"
  const BaseUrl := "https://cn.govopendata.com/xinwenlianbo/"

  /** The base URL without its final '/'. */
  const BaseDir := "https://cn.govopendata.com/xinwenlianbo"

  /**
   * `url2id`: RuntimeError unless the URL is under the base URL; otherwise the last '/'-separated
   * part, or the one before it when the URL ends with '/'.
   */
  function Url2Id(url: string): (r: Result<string>)
    ensures r.Err? <==> !StartsWith(url, BaseUrl)
    ensures r.Err? ==> r.error == RuntimeError
  {
    if !StartsWith(url, BaseUrl) then Err(RuntimeError)
    else
      var parts := Split(url, '/');
      SplitLast(url, '/');
      if parts[|parts| - 1] == "" then
        assert |parts| > 1;
        Ok(parts[|parts| - 2])
      else Ok(parts[|parts| - 1])
  }

  /**
   * The id is a segment of the URL: the URL ends with '/', the id and '/' when it ends with '/',
   * and with '/' and the id otherwise; the id holds no '/'.
   */
  lemma Url2IdSegment(url: string)
    requires StartsWith(url, BaseUrl)
    ensures var id := Url2Id(url).value;
      '/' !in id
      && (EndsWith(url, "/") ==> EndsWith(url, "/" + id + "/"))
      && (!EndsWith(url, "/") ==> EndsWith(url, "/" + id))
  {
    var parts := Split(url, '/');
    SplitLast(url, '/');
    UnderBaseSlash(url);
    ManyParts(url, '/', parts, 6);
    if parts[|parts| - 1] == "" {
      SlashEnded(url);
    } else {
      NonEmptyLast(url, parts[|parts| - 1]);
    }
  }

  /** A URL ending with '/' and a non-empty segment without '/' does not end with '/'. */
  lemma NonEmptyLast(url: string, l: string)
    requires l != "" && '/' !in l && EndsWith(url, ['/'] + l)
    ensures !EndsWith(url, "/") && EndsWith(url, "/" + l)
  {
    assert url[|url| - 1] == (['/'] + l)[|l|] == l[|l| - 1];
  }

  /** The base URL's scheme ends in "//": a URL under it has a '/' at position 6. */
  lemma UnderBaseSlash(url: string)
    requires StartsWith(url, BaseUrl)
    ensures |url| > 7 && url[6] == '/'
  {
    assert url[..|BaseUrl|][6] == BaseUrl[6];
  }

  /** A string holding the separator splits into several parts. */
  lemma ManyParts(s: string, c: char, p: seq<string>, k: nat)
    requires |p| >= 1 && LastPartOk(s, c, p) && k < |s| && s[k] == c
    ensures |p| > 1
  {
    if |p| == 1 {
      assert false;
    }
  }

  /** A URL under the base ending in '/': its id is the part before the final '/'. */
  lemma SlashEnded(url: string)
    requires StartsWith(url, BaseUrl) && |url| > 7
    requires var parts := Split(url, '/'); parts[|parts| - 1] == "" && EndsWith(url, "/")
    ensures var id := Url2Id(url).value; '/' !in id && EndsWith(url, "/" + id + "/")
  {
    var pre := url[..|url| - 1];
    SlashSplit(url);
    var q := Split(pre, '/');
    UnderBaseSlash(url);
    PreLastSegment(pre, q);
    assert Url2Id(url).value == q[|q| - 1];
  }

  /** Splitting a URL that ends with '/' gives the parts before that '/' and an empty last one. */
  lemma SlashSplit(url: string)
    requires EndsWith(url, "/")
    ensures var pre := url[..|url| - 1]; url == pre + "/" && Split(url, '/') == Split(pre, '/') + [""]
  {
    var pre := url[..|url| - 1];
    assert url == pre + ['/'] + "";
    SplitAround(pre, '/', "");
  }

  /** Before the final '/', a URL under the base ends with '/' and its last part. */
  lemma PreLastSegment(pre: string, q: seq<string>)
    requires |pre| > 6 && pre[6] == '/' && q == Split(pre, '/')
    ensures |q| > 1 && '/' !in q[|q| - 1] && EndsWith(pre + "/", "/" + q[|q| - 1] + "/")
  {
    SplitLast(pre, '/');
    ManyParts(pre, '/', q, 6);
    EndsWithBoth(pre, "/" + q[|q| - 1], "/");
  }

  /** Appending the same text to a string and to a suffix of it keeps the suffix. */
  lemma EndsWithBoth(s: string, t: string, x: string)
    requires EndsWith(s, t)
    ensures EndsWith(s + x, t + x)
  {
    assert (s + x)[|s + x| - |t + x|..] == s[|s| - |t|..] + x;
  }

  /**
   * `id2url`: the base URL, the id and '/'. As written, the guard rejects only an all-digit id whose
   * length is not 8: any id with a non-digit character passes.
   */
  function Id2Url(id: string): (r: Result<string>)
    ensures r.Err? <==> |id| != 8 && IsDigits(id)
    ensures r.Ok? ==> StartsWith(r.value, BaseUrl) && EndsWith(r.value, "/")
  {
    if |id| != 8 && IsDigits(id) then Err(RuntimeError) else Ok(BaseUrl + id + "/")
  }

  lemma BaseSplit(id: string)
    requires '/' !in id
    ensures Split(BaseUrl + id + "/", '/') == Split(BaseDir, '/') + [id, ""]
  {
    assert BaseUrl == BaseDir + ['/'];
    DirSplit(BaseDir, id);
  }

  /** A directory, '/', a segment without '/' and '/' split into the directory's parts, the segment and "". */
  lemma DirSplit(dir: string, id: string)
    requires '/' !in id
    ensures Split(dir + ['/'] + id + "/", '/') == Split(dir, '/') + [id, ""]
  {
    assert dir + ['/'] + id + "/" == (dir + ['/'] + id) + ['/'] + "";
    SplitAround(dir + ['/'] + id, '/', "");
    SplitAround(dir, '/', id);
    SplitNoSep(id, '/');
  }

  /** An id without '/' that `id2url` accepts comes back from `url2id`. */
  lemma IdRoundTrip(id: string)
    requires '/' !in id && Id2Url(id).Ok?
    ensures Url2Id(Id2Url(id).value) == Ok(id)
  {
    BaseSplit(id);
  }

  /** The check the error message states: the id must be eight digits. */
  function Id2UrlChecked(id: string): (r: Result<string>)
    ensures r.Ok? <==> |id| == 8 && IsDigits(id)
  {
    if |id| != 8 || !IsDigits(id) then Err(RuntimeError) else Ok(BaseUrl + id + "/")
  }

  /** As written, an id that is not a date at all is accepted. */
  lemma Id2UrlAcceptsNonDate()
    ensures Id2Url("latest") == Ok(BaseUrl + "latest/")
    ensures Id2UrlChecked("latest").Err?
  {
    assert !IsDigit("latest"[0]);
    assert BaseUrl + "latest" + "/" == BaseUrl + "latest/";
  }

  /** The checked version accepts exactly the formatted dates' shape, round-trips, and agrees with the original on them. */
  lemma Id2UrlCheckedDates(d: Date)
    requires Valid(d) && 1 <= d.year <= 9999
    ensures var id := FormatYmd(d);
      Id2UrlChecked(id).Ok? && Id2UrlChecked(id) == Id2Url(id)
      && Url2Id(Id2UrlChecked(id).value) == Ok(id)
  {
    var id := FormatYmd(d);
    FormatYmdLength(d);
    assert '/' !in id by {
      forall i | 0 <= i < |id|
        ensures id[i] != '/'
      {
        assert IsDigit(id[i]);
      }
    }
    IdRoundTrip(id);
  }

  /**
   * `date_end`: the parameter when given, else the date 21 hours before `now`. The default is
   * formatted first, so a clock at the very start of year 1 fails either way.
   */
  function DateEnd(params: map<string, string>, now: DateHour): (r: Result<string>)
    requires ValidDateHour(now)
    ensures SubHours(now, 21).date.year < 1 ==> r == Err(OverflowError)
    ensures 1 <= SubHours(now, 21).date.year ==>
      r == Ok(if "date_end" in params then params["date_end"] else FormatYmd(SubHours(now, 21).date))
  {
    var t := SubHours(now, 21);
    if t.date.year < 1 then Err(OverflowError)
    else
      var fallback := FormatYmd(t.date);
      if "date_end" in params then Ok(params["date_end"]) else Ok(fallback)
  }

  predicate InRange(d: Date) { 1 <= d.year <= 9999 }

  /** `d0 + timedelta(days=k)`, which `datetime` rejects outside years 1 to 9999. */
  function DayUrl(d0: Date, k: int): (r: Result<string>)
    requires Valid(d0)
  {
    var d := AddDays(d0, k);
    if !InRange(d) then Err(OverflowError) else Id2Url(FormatYmd(d))
  }

  /** The URLs of the first `k` days from `d0`. */
  function UrlsUpTo(d0: Date, k: nat): (r: Result<seq<string>>)
    requires Valid(d0)
  {
    Tabulate(DayUrls(d0), k)
  }

  function DayUrls(d0: Date): nat -> Result<string>
    requires Valid(d0)
  {
    i => DayUrl(d0, i)
  }

  /** The first day of the list: `n - 1` days before the end date. */
  function FirstDay(d1: Date, n: int): Date
    requires Valid(d1)
  {
    AddDays(d1, -(n - 1))
  }

  function ListSpec(n: int, dateEnd: string): Result<seq<string>> {
    match ParseYmd(dateEnd)
    case None => Err(ValueError)
    case Some(d1) =>
      var d0 := FirstDay(d1, n);
      if !InRange(d0) then Err(OverflowError)
      else UrlsUpTo(d0, if n > 0 then n else 0)
  }

  /**
   * `list`: from `n - 1` days before `date_end` to `date_end`, one URL per day. The range holds
   * `(d1 - d0).days + 1` days, which is `n` for positive `n` and none otherwise; the `len(urls) > n`
   * exit is never taken.
   */
  method List(n: int, dateEnd: string) returns (r: Result<seq<string>>)
    ensures r == ListSpec(n, dateEnd)
  {
    var end := ParseYmd(dateEnd);
    if end.None? {
      return Err(ValueError);
    }
    var d1 := end.value;
    var d0 := FirstDay(d1, n);
    if !InRange(d0) {
      return Err(OverflowError);
    }
    var span := n - 1;  // (d1 - d0).days
    var count := if span + 1 > 0 then span + 1 else 0;
    var urls: seq<string> := [];
    for d := 0 to count
      invariant UrlsUpTo(d0, d) == Ok(urls)
    {
      var u := DayUrl(d0, d);
      UrlsStep(d0, d, urls);
      if u.Err? {
        TabulateErrorSticks(DayUrls(d0), d + 1, count);
        return Err(u.error);
      }
      urls := urls + [u.value];
      if n != 0 && |urls| > n {
        assert false;
        break;
      }
    }
    r := Ok(urls);
  }

  /** One more day: its URL appended, or its exception. */
  lemma UrlsStep(d0: Date, d: nat, urls: seq<string>)
    requires Valid(d0) && UrlsUpTo(d0, d) == Ok(urls)
    ensures |urls| == d
    ensures UrlsUpTo(d0, d + 1) == if DayUrl(d0, d).Err? then Err(DayUrl(d0, d).error) else Ok(urls + [DayUrl(d0, d).value])
  {
    assert DayUrls(d0)(d) == DayUrl(d0, d);
  }

  /** Adding days composes. */
  lemma {:induction false} AddDaysCompose(d: Date, j: int, k: int)
    requires Valid(d)
    ensures AddDays(AddDays(d, j), k) == AddDays(d, j + k)
    decreases if k >= 0 then k else -k
  {
    if k > 0 {
      AddDaysCompose(d, j, k - 1);
      AddDaysSucc(d, j + k - 1);
    } else if k < 0 {
      AddDaysCompose(d, j, k + 1);
      AddDaysSucc(d, j + k);
      PrevOfNext(AddDays(d, j + k));
    }
  }

  /** A day between two in-range days is in range. */
  lemma BetweenInRange(d0: Date, i: int, m: int)
    requires Valid(d0) && 0 <= i <= m && InRange(d0) && InRange(AddDays(d0, m))
    ensures InRange(AddDays(d0, i))
  {
    if 0 < i {
      AddDaysMonotone(d0, 0, i);
    }
    if i < m {
      AddDaysMonotone(d0, i, m);
    }
  }

  lemma DayUrlIsOk(d0: Date, i: int, m: int)
    requires Valid(d0) && 0 <= i <= m && InRange(d0) && InRange(AddDays(d0, m))
    ensures DayUrl(d0, i).Ok?
  {
    DayUrlOk(d0, i, m);
  }

  /** The URL of an in-range day. */
  lemma DayUrlOk(d0: Date, i: int, m: int)
    requires Valid(d0) && 0 <= i <= m && InRange(d0) && InRange(AddDays(d0, m))
    ensures InRange(AddDays(d0, i)) && DayUrl(d0, i) == Ok(BaseUrl + FormatYmd(AddDays(d0, i)) + "/")
  {
    BetweenInRange(d0, i, m);
    Id2UrlCheckedDates(AddDays(d0, i));
  }

  /** An unreadable end date is a ValueError, a first day out of range an OverflowError. */
  lemma ListErrors(n: int, dateEnd: string)
    ensures ParseYmd(dateEnd).None? ==> ListSpec(n, dateEnd) == Err(ValueError)
    ensures ParseYmd(dateEnd).Some? && !InRange(FirstDay(ParseYmd(dateEnd).value, n)) ==> ListSpec(n, dateEnd) == Err(OverflowError)
  {
  }

  /**
   * For an end date `d1` whose list starts in range, the list has `max(n, 0)` URLs, the i-th for
   * the day `i` days after the first, each a day after the previous one, the last for `d1` itself.
   */
  lemma ListDays(n: int, dateEnd: string)
    requires ParseYmd(dateEnd).Some? && InRange(FirstDay(ParseYmd(dateEnd).value, n))
    ensures var d1 := ParseYmd(dateEnd).value;
      var d0 := FirstDay(d1, n);
      var r := ListSpec(n, dateEnd);
      r.Ok? && |r.value| == (if n > 0 then n else 0)
      && (forall i :: 0 <= i < |r.value| ==> InRange(AddDays(d0, i)) && r.value[i] == BaseUrl + FormatYmd(AddDays(d0, i)) + "/")
      && (forall i :: 0 <= i < |r.value| - 1 ==> AddDays(d0, i + 1) == NextDay(AddDays(d0, i)))
      && (n > 0 ==> AddDays(d0, n - 1) == d1)
  {
    var d1 := ParseYmd(dateEnd).value;
    var d0 := FirstDay(d1, n);
    assert ListSpec(n, dateEnd) == UrlsUpTo(d0, if n > 0 then n else 0);
    if n > 0 {
      ListEndsAt(d1, n);
      ListUrls(d0, n);
    }
  }

  /** The list's days run one after another up to `d1`. */
  lemma ListEndsAt(d1: Date, n: int)
    requires Valid(d1) && n > 0
    ensures var d0 := FirstDay(d1, n);
      AddDays(d0, n - 1) == d1 && forall i :: 0 <= i < n - 1 ==> AddDays(d0, i + 1) == NextDay(AddDays(d0, i))
  {
    var d0 := FirstDay(d1, n);
    AddDaysCompose(d1, -(n - 1), n - 1);
    assert AddDays(d1, 0) == d1;
    forall i | 0 <= i < n - 1
      ensures AddDays(d0, i + 1) == NextDay(AddDays(d0, i))
    {
      AddDaysSucc(d0, i);
    }
  }

  /** When the first and last days are in range, every day's URL is made. */
  lemma ListUrls(d0: Date, n: int)
    requires Valid(d0) && n > 0 && InRange(d0) && InRange(AddDays(d0, n - 1))
    ensures UrlsUpTo(d0, n).Ok? && |UrlsUpTo(d0, n).value| == n
    ensures forall i :: 0 <= i < n ==> InRange(AddDays(d0, i)) && UrlsUpTo(d0, n).value[i] == BaseUrl + FormatYmd(AddDays(d0, i)) + "/"
  {
    forall i: nat | i < n
      ensures DayUrls(d0)(i).Ok?
    {
      DayUrlIsOk(d0, i, n - 1);
    }
    TabulateOk(DayUrls(d0), n);
    var urls := UrlsUpTo(d0, n).value;
    forall i | 0 <= i < n
      ensures InRange(AddDays(d0, i)) && urls[i] == BaseUrl + FormatYmd(AddDays(d0, i)) + "/"
    {
      DayUrlOk(d0, i, n - 1);
    }
  }
}
