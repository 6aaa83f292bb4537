/**
 * The Hacker News comments retriever (`hn_comments`): item ids, the ranking of the front page
 * by comment count, and the flattening of a discussion page's markdown into an indented list
 * of comments.
 */
module HNComments {
  import opened Wrappers
  import opened PyStr
  import opened Sorting
  import Crawl4AI

  const Name := "hn_comments"
  const ItemPrefix := "https://news.ycombinator.com/item?id="

  /** The constructor's defaults, overridden by the caller's parameters. */
  function Params(params: map<string, string>): (r: map<string, string>)
    ensures forall k :: k in params ==> k in r && r[k] == params[k]
    ensures "parser" !in params ==> "parser" in r && r["parser"] == "markdown"
    ensures "strip_boilerplate" !in params ==> "strip_boilerplate" in r && r["strip_boilerplate"] == "False"
    ensures "use_proxy" !in params ==> "use_proxy" in r && r["use_proxy"] == "True"
  {
    map["name" := Name, "description" := "Hackernews评论", "parser" := "markdown",
        "use_proxy" := "True", "strip_boilerplate" := "False", "mean_delay" := "3"] + params
  }

  // ---------------------------------------------------------------------------------------
  // ids

  /** The longest prefix of ASCII digits. */
  function DigitRun(s: string): (r: string)
    ensures |r| <= |s| && r == s[..|r|]
    ensures forall i :: 0 <= i < |r| ==> IsDigit(r[i])
    ensures |r| < |s| ==> !IsDigit(s[|r|])
  {
    if |s| == 0 || !IsDigit(s[0]) then "" else [s[0]] + DigitRun(s[1..])
  }

  /** `url2id`: the digits right after the item prefix, matched at the start of the URL; RuntimeError when there are none. */
  function Url2Id(url: string): (r: Result<string>)
    ensures r.Ok? <==> StartsWith(url, ItemPrefix) && |url| > |ItemPrefix| && IsDigit(url[|ItemPrefix|])
    ensures r.Err? ==> r.error == RuntimeError
    ensures r.Ok? ==> IsDigits(r.value) && StartsWith(url, ItemPrefix + r.value)
    ensures r.Ok? ==> |url| == |ItemPrefix| + |r.value| || !IsDigit(url[|ItemPrefix| + |r.value|])
  {
    if StartsWith(url, ItemPrefix) then
      var d := DigitRun(url[|ItemPrefix|..]);
      if |d| == 0 then Err(RuntimeError)
      else
        assert url[..|ItemPrefix| + |d|] == ItemPrefix + d;
        Ok(d)
    else Err(RuntimeError)
  }

  /** `id2url`: RuntimeError unless the id is all digits. */
  function Id2Url(id: string): (r: Result<string>)
    ensures r.Ok? <==> IsDigits(id)
    ensures r.Err? ==> r.error == RuntimeError
    ensures r.Ok? ==> StartsWith(r.value, ItemPrefix) && r.value[|ItemPrefix|..] == id
  {
    if IsDigits(id) then Ok(ItemPrefix + id) else Err(RuntimeError)
  }

  /** An id survives the way to a URL and back. */
  lemma IdRoundTrip(d: string)
    requires IsDigits(d)
    ensures Id2Url(d).Ok?
    ensures Url2Id(Id2Url(d).value) == Ok(d)
  {
    var url := ItemPrefix + d;
    assert url[..|ItemPrefix|] == ItemPrefix;
    assert url[|ItemPrefix|..] == d;
    var run := DigitRun(d);
    assert run == d;
  }

  /** A URL's id leads back to the URL's item page, with any suffix after the digits dropped. */
  lemma UrlRoundTrip(url: string)
    requires Url2Id(url).Ok?
    ensures Id2Url(Url2Id(url).value).Ok?
    ensures StartsWith(url, Id2Url(Url2Id(url).value).value)
    ensures Url2Id(Id2Url(Url2Id(url).value).value) == Url2Id(url)
  {
    IdRoundTrip(Url2Id(url).value);
  }

  // ---------------------------------------------------------------------------------------
  // list: ranking the front page by comments

  /** A front-page link with its comment count. */
  datatype Ranked = Ranked(url: string, text: string, comments: int)

  /** The comment count of a link text: the first word as an integer when the text mentions comments, else 0. */
  function CommentCount(text: string): (r: Result<int>)
    ensures !Contains(text, "comment") ==> r == Ok(0)
    ensures Contains(text, "comment") && |Words(text)| > 0 ==> r == PyInt(Words(text)[0])
  {
    if Contains(text, "comment") then
      var w := Words(text);
      if |w| == 0 then Err(IndexError) else PyInt(w[0])
    else Ok(0)
  }

  /** Python's `(a.comments, a.url) <= (b.comments, b.url)`. */
  predicate RankLe(a: Ranked, b: Ranked) {
    a.comments < b.comments || (a.comments == b.comments && StrLe(a.url, b.url))
  }

  lemma RankLePreorder()
    ensures Preorder(RankLe)
  {
    forall a: Ranked, b: Ranked
      ensures RankLe(a, b) || RankLe(b, a)
    {
      StrLeTotal(a.url, b.url);
    }
    forall a: Ranked, b: Ranked, c: Ranked | RankLe(a, b) && RankLe(b, c)
      ensures RankLe(a, c)
    {
      if a.comments == b.comments == c.comments {
        StrLeTrans(a.url, b.url, c.url);
      }
    }
  }

  /** The first `k` links with their counts, or the first error. */
  function RankedUpTo(items: seq<Crawl4AI.LinkItem>, k: nat): (r: Result<seq<Ranked>>)
    requires k <= |items|
    ensures r.Ok? ==> |r.value| == k
    ensures r.Ok? ==> forall i :: 0 <= i < k ==>
      r.value[i].url == items[i].url && r.value[i].text == items[i].text && CommentCount(items[i].text) == Ok(r.value[i].comments)
  {
    if k == 0 then Ok([])
    else
      match RankedUpTo(items, k - 1)
      case Err(e) => Err(e)
      case Ok(head) =>
        match CommentCount(items[k - 1].text)
        case Err(e) => Err(e)
        case Ok(c) => Ok(head + [Ranked(items[k - 1].url, items[k - 1].text, c)])
  }

  /** The first failing count is the error of the whole list. */
  lemma {:induction false} RankedErrorSticks(items: seq<Crawl4AI.LinkItem>, k: nat, m: nat)
    requires k <= m <= |items| && RankedUpTo(items, k).Err?
    ensures RankedUpTo(items, m) == RankedUpTo(items, k)
    decreases m - k
  {
    if k < m {
      RankedErrorSticks(items, k, m - 1);
    }
  }

  function Urls(rs: seq<Ranked>): (r: seq<string>)
    ensures |r| == |rs| && forall i :: 0 <= i < |rs| ==> r[i] == rs[i].url
  {
    if |rs| == 0 then [] else Urls(rs[..|rs| - 1]) + [rs[|rs| - 1].url]
  }

  /** The post-processing of `list`: count, sort descending by (comments, url), keep `items[:min(n, len)]`. */
  function ListSpec(items: seq<Crawl4AI.LinkItem>, n: int): Result<seq<string>> {
    match RankedUpTo(items, |items|)
    case Err(e) => Err(e)
    case Ok(ranked) =>
      var sorted := SortDesc(ranked, RankLe);
      Ok(Urls(PyPrefix(sorted, Min(n, |sorted|))))
  }

  /** `list` after the front page has been fetched and decoded into `items`. */
  method List(items: seq<Crawl4AI.LinkItem>, n: int) returns (r: Result<seq<string>>)
    ensures r == ListSpec(items, n)
  {
    var ranked: seq<Ranked> := [];
    var i := 0;
    while i < |items|
      invariant 0 <= i <= |items|
      invariant RankedUpTo(items, i) == Ok(ranked)
    {
      var count := CommentCount(items[i].text);
      if count.Err? {
        RankedErrorSticks(items, i + 1, |items|);
        return Err(count.error);
      }
      ranked := ranked + [Ranked(items[i].url, items[i].text, count.value)];
      i := i + 1;
    }
    var sorted := SortDesc(ranked, RankLe);
    r := Ok(Urls(PyPrefix(sorted, Min(n, |sorted|))));
  }

  /**
   * The URLs returned are those of the best-ranked links, most comments first (ties by URL,
   * descending), every link counted once; `n` of them, or all when there are fewer, or all but
   * the last `-n` for a negative `n`.
   */
  lemma ListRanking(items: seq<Crawl4AI.LinkItem>, n: int)
    requires ListSpec(items, n).Ok?
    ensures RankedUpTo(items, |items|).Ok? && |RankedUpTo(items, |items|).value| == |items|
    ensures |ListSpec(items, n).value| == if n >= 0 then Min(n, |items|) else if -n <= |items| then |items| + n else 0
    ensures var ranked := RankedUpTo(items, |items|).value;
      var s := SortDesc(ranked, RankLe);
      SortedDesc(s, RankLe) && multiset(s) == multiset(ranked)
      && ListSpec(items, n).value == Urls(s[..|ListSpec(items, n).value|])
  {
    RankLePreorder();
    SortDescSorted(RankedUpTo(items, |items|).value, RankLe);
  }

  // ---------------------------------------------------------------------------------------
  // parse: the comment tree

  const SiteBase := "https://news.ycombinator.com/"
  const VoteMarker := "https://news.ycombinator.com/vote"
  const ReplyPrefix := "_[reply](https://news.ycombinator.com/reply?"

  /** `re.findall(r'\[(.*?)\]\((.*?)\)', l)` on one line (a line holds no newline): the text and target of every link, left to right. */
  function LinkMatches(l: string): (r: seq<(string, string)>)
    ensures forall m :: m in r ==> ')' !in m.1
    decreases |l|
  {
    var i := Find(l, "[");
    if i < 0 then []
    else
      var rest := l[i + 1..];
      var j := Find(rest, "](");
      if j < 0 then []
      else
        var after := rest[j + 2..];
        var k := Find(after, ")");
        if k < 0 then []
        else
          assert forall q :: 0 <= q < k ==> after[q] != ')' by {
            forall q | 0 <= q < k
              ensures after[q] != ')'
            {
              assert !StartsWith(after[q..], ")");
            }
          }
          [(rest[..j], after[..k])] + LinkMatches(after[k + 1..])
  }

  /** The links of a vote line, their targets relative to the site. */
  function Relative(ms: seq<(string, string)>): (r: seq<(string, string)>)
    ensures |r| == |ms|
    ensures forall i :: 0 <= i < |ms| ==> r[i] == (ms[i].0, ReplaceAll(ms[i].1, SiteBase, ""))
  {
    if |ms| == 0 then [] else Relative(ms[..|ms| - 1]) + [(ms[|ms| - 1].0, ReplaceAll(ms[|ms| - 1].1, SiteBase, ""))]
  }

  /**
   * One comment record. `post` is the post's title and link on the record of the post itself;
   * `level` is the memoised depth in the reply tree.
   */
  datatype Info = Info(
    commentId: Option<string>, originPost: bool, userId: Option<string>, parentId: Option<string>,
    post: Option<(string, string)>, text: Option<string>, seqNum: int, level: Option<nat>)

  const Fresh := Info(None, false, None, None, None, None, 0, None)

  /** `s.split(c)[i]`, IndexError when there are not that many parts. */
  function Part(s: string, c: char, i: nat): (r: Result<string>)
    ensures r.Ok? <==> i < |Split(s, c)|
    ensures r.Ok? ==> r.value == Split(s, c)[i]
    ensures r.Err? ==> r.error == IndexError
  {
    var parts := Split(s, c);
    if i < |parts| then Ok(parts[i]) else Err(IndexError)
  }

  function Then(r: Result<string>, c: char, i: nat): Result<string> {
    match r
    case Err(e) => Err(e)
    case Ok(s) => Part(s, c, i)
  }

  /**
   * What one link of a vote line adds to the record: its comment id (and whether it is the post
   * itself, which asks for the page's own id `postId`), its author, its parent, or the post's title.
   */
  function LinkStep(info: Info, text: string, link: string, postId: Result<string>): (r: Result<Info>)
    ensures StartsWith(link, "vote?id=") && r.Ok? ==>
      r.value.commentId.Some? && postId.Ok? && r.value.originPost == (info.originPost || r.value.commentId.value == postId.value)
    ensures !StartsWith(link, "vote?id=") && !StartsWith(link, "user?id=") && text != "parent" ==> r.Ok?
    ensures r.Ok? ==> r.value.seqNum == info.seqNum && r.value.level == info.level && r.value.text == info.text
  {
    if StartsWith(link, "vote?id=") then
      match Then(Part(link, '=', 1), '&', 0)
      case Err(e) => Err(e)
      case Ok(cid) =>
        match postId
        case Err(e) => Err(e)
        case Ok(pid) => Ok(info.(commentId := Some(cid), originPost := info.originPost || cid == pid))
    else if StartsWith(link, "user?id=") then
      match Part(link, '=', 1)
      case Err(e) => Err(e)
      case Ok(user) => Ok(info.(userId := Some(user)))
    else if text == "parent" then
      match Then(Part(link, '=', 1), '#', 1)
      case Err(e) => Err(e)
      case Ok(parent) => Ok(info.(parentId := Some(parent)))
    else if info.originPost && text != "" && link != "" && info.post.None? then Ok(info.(post := Some((text, link))))
    else Ok(info)
  }

  /** The record built from the first `k` links of a vote line. */
  function RecordUpTo(links: seq<(string, string)>, postId: Result<string>, k: nat): Result<Info>
    requires k <= |links|
  {
    if k == 0 then Ok(Fresh)
    else
      match RecordUpTo(links, postId, k - 1)
      case Err(e) => Err(e)
      case Ok(info) => LinkStep(info, links[k - 1].0, links[k - 1].1, postId)
  }

  lemma {:induction false} RecordErrorSticks(links: seq<(string, string)>, postId: Result<string>, k: nat, m: nat)
    requires k <= m <= |links| && RecordUpTo(links, postId, k).Err?
    ensures RecordUpTo(links, postId, m) == RecordUpTo(links, postId, k)
    decreases m - k
  {
    if k < m {
      RecordErrorSticks(links, postId, k, m - 1);
    }
  }

  /** The record of a vote line: a fresh one, filled link by link. */
  method BuildRecord(links: seq<(string, string)>, postId: Result<string>) returns (r: Result<Info>)
    ensures r == RecordUpTo(links, postId, |links|)
  {
    var info := Fresh;
    var i := 0;
    while i < |links|
      invariant 0 <= i <= |links|
      invariant RecordUpTo(links, postId, i) == Ok(info)
    {
      var step := LinkStep(info, links[i].0, links[i].1, postId);
      if step.Err? {
        RecordErrorSticks(links, postId, i + 1, |links|);
        return Err(step.error);
      }
      info := step.value;
      i := i + 1;
    }
    r := Ok(info);
  }

  /** A fresh record is never nested, and nothing a link adds places it in the tree. */
  lemma {:induction false} RecordUnleveled(links: seq<(string, string)>, postId: Result<string>, k: nat)
    requires k <= |links| && RecordUpTo(links, postId, k).Ok?
    ensures RecordUpTo(links, postId, k).value.level.None?
    ensures RecordUpTo(links, postId, k).value.text.None?
    ensures RecordUpTo(links, postId, k).value.originPost ==> postId.Ok?
  {
    if k > 0 {
      RecordUnleveled(links, postId, k - 1);
    }
  }

  /**
   * The scan state: the stored records by comment id, the ids in insertion order, and the record
   * the next reply line writes to: a stored one (`cur`) or one that was not stored (`loose`).
   */
  datatype Scan = Scan(comments: map<string, Info>, order: seq<string>, cur: Option<string>, loose: Info)

  ghost predicate ScanOk(st: Scan) {
    (forall k :: k in st.comments <==> k in st.order)
    && (forall i, j :: 0 <= i < j < |st.order| ==> st.order[i] != st.order[j])
    && (st.cur.Some? ==> st.cur.value in st.comments)
  }

  function Current(st: Scan): Info {
    if st.cur.Some? && st.cur.value in st.comments then st.comments[st.cur.value] else st.loose
  }

  function SetCurrent(st: Scan, info: Info): (r: Scan) {
    if st.cur.Some? && st.cur.value in st.comments then st.(comments := st.comments[st.cur.value := info]) else st.(loose := info)
  }

  /** A vote line's record is stored under its comment id, numbered by the count of records stored before it. */
  function Store(st: Scan, info: Info): (r: Scan) {
    if info.commentId.None? || info.commentId.value == "" then st.(cur := None, loose := info)
    else
      var id := info.commentId.value;
      Scan(st.comments[id := info.(seqNum := |st.comments|)],
           if id in st.comments then st.order else st.order + [id], Some(id), st.loose)
  }

  /** One line of the page's markdown. */
  function LineStep(st: Scan, l: string, postId: Result<string>): Result<Scan> {
    if Contains(l, VoteMarker) then
      var links := Relative(LinkMatches(l));
      match RecordUpTo(links, postId, |links|)
      case Err(e) => Err(e)
      case Ok(info) => Ok(Store(st, info))
    else
      var start := Find(l, ReplyPrefix);
      if start > 0 && !Current(st).originPost then Ok(SetCurrent(st, Current(st).(text := Some(l[..start - 1]))))
      else Ok(st)
  }

  const Start := Scan(map[], [], None, Fresh)

  function LineStepFn(postId: Result<string>): (Scan, string) -> Result<Scan> {
    (st: Scan, l: string) => LineStep(st, l, postId)
  }

  /** The scan of the first `k` lines. */
  function ScanUpTo(lines: seq<string>, postId: Result<string>, k: nat): Result<Scan>
    requires k <= |lines|
  {
    Fold(LineStepFn(postId), Start, lines, k)
  }

  lemma StoreOk(st: Scan, info: Info)
    requires ScanOk(st)
    ensures ScanOk(Store(st, info))
  {
  }

  lemma LineStepOk(st: Scan, l: string, postId: Result<string>)
    requires ScanOk(st) && LineStep(st, l, postId).Ok?
    ensures ScanOk(LineStep(st, l, postId).value)
  {
    if Contains(l, VoteMarker) {
      var links := Relative(LinkMatches(l));
      var info := RecordUpTo(links, postId, |links|).value;
      assert LineStep(st, l, postId) == Ok(Store(st, info));
      StoreOk(st, info);
    } else {
      var start := Find(l, ReplyPrefix);
      if start > 0 && !Current(st).originPost {
        assert LineStep(st, l, postId) == Ok(SetCurrent(st, Current(st).(text := Some(l[..start - 1]))));
      }
    }
  }

  /** The stored ids are the ids in `order`, each once, and the current record is a stored one when it is not loose. */
  lemma ScanUpToOk(lines: seq<string>, postId: Result<string>, k: nat)
    requires k <= |lines| && ScanUpTo(lines, postId, k).Ok?
    ensures ScanOk(ScanUpTo(lines, postId, k).value)
  {
    forall st, l | ScanOk(st) && LineStepFn(postId)(st, l).Ok?
      ensures ScanOk(LineStepFn(postId)(st, l).value)
    {
      LineStepOk(st, l, postId);
    }
    FoldInvariant(LineStepFn(postId), ScanOk, Start, lines, k);
  }

  /**
   * A vote line stores its record under its comment id with `seq` the number of records stored
   * before it, and makes it the current record; without a comment id nothing is stored.
   */
  lemma VoteLineStores(st: Scan, l: string, postId: Result<string>)
    requires ScanOk(st) && Contains(l, VoteMarker) && LineStep(st, l, postId).Ok?
    ensures var info := RecordUpTo(Relative(LinkMatches(l)), postId, |Relative(LinkMatches(l))|).value;
      var st' := LineStep(st, l, postId).value;
      if info.commentId.Some? && info.commentId.value != "" then
        var id := info.commentId.value;
        st'.comments == st.comments[id := info.(seqNum := |st.comments|)] && st'.cur == Some(id)
      else st'.comments == st.comments && st'.cur.None?
  {
  }

  /**
   * A reply line gives the current record the text before the reply link (one character short
   * of it), unless the link opens the line or the record is the post; other lines change nothing.
   */
  lemma ReplyLineSetsText(st: Scan, l: string, postId: Result<string>)
    requires ScanOk(st) && !Contains(l, VoteMarker)
    ensures var start := Find(l, ReplyPrefix);
      var st' := LineStep(st, l, postId);
      st'.Ok? && st'.value.order == st.order && st'.value.cur == st.cur
      && (start > 0 && !Current(st).originPost ==>
            Current(st'.value) == Current(st).(text := Some(l[..start - 1]))
            && (forall k :: k in st.comments && Some(k) != st.cur ==> k in st'.value.comments && st'.value.comments[k] == st.comments[k]))
      && (!(start > 0 && !Current(st).originPost) ==> st'.value == st)
  {
  }

  // ---------------------------------------------------------------------------------------
  // levels

  predicate HasParent(info: Info) {
    info.parentId.Some? && info.parentId.value != ""
  }

  /** A memoised level agrees with the parent: 0 without one, 1 when the parent is not on the page, else one more than the parent's. */
  predicate LevelOk(c: map<string, Info>, k: string)
    requires k in c
  {
    c[k].level.Some? ==>
      if !HasParent(c[k]) then c[k].level.value == 0
      else if c[k].parentId.value !in c then c[k].level.value == 1
      else c[c[k].parentId.value].level.Some? && c[k].level.value == c[c[k].parentId.value].level.value + 1
  }

  predicate Consistent(c: map<string, Info>) {
    forall k :: k in c ==> LevelOk(c, k)
  }

  /** Everything but the levels. */
  predicate SameButLevels(c: map<string, Info>, c2: map<string, Info>) {
    c2.Keys == c.Keys && forall k :: k in c ==> c2[k].(level := None) == c[k].(level := None)
  }

  lemma Shrinks(keys: set<string>, visiting: set<string>, id: string)
    requires id in keys && id !in visiting
    ensures |keys - (visiting + {id})| < |keys - visiting|
  {
    var a, b := keys - (visiting + {id}), keys - visiting;
    assert b == a + {id} && id !in a;
  }

  /**
   * `update_and_get_level`: the level of `id`, memoised into its record along the way. An id not
   * on the page has level 0. `visiting` holds the records whose level is being computed: meeting
   * one again is a cycle in the parent links, where the recursion never ends (RecursionError).
   */
  function GetLevel(c: map<string, Info>, id: string, visiting: set<string>): (r: Result<(map<string, Info>, nat)>)
    ensures r.Ok? ==> r.value.0.Keys == c.Keys
    decreases |c.Keys - visiting|
  {
    if id !in c then Ok((c, 0))
    else if c[id].level.Some? then Ok((c, c[id].level.value))
    else if id in visiting then Err(RecursionError)
    else if !HasParent(c[id]) then Ok((c[id := c[id].(level := Some(0))], 0))
    else
      Shrinks(c.Keys, visiting, id);
      match GetLevel(c, c[id].parentId.value, visiting + {id})
      case Err(e) => Err(e)
      case Ok((c2, l)) => Ok((c2[id := c2[id].(level := Some(l + 1))], l + 1))
  }

  /**
   * What one call promises: only levels change; levels already memoised and the records being
   * visited stay as they are; the level returned is the one memoised for `id`, 0 when it is not
   * on the page.
   */
  predicate FrameOk(c: map<string, Info>, c2: map<string, Info>, id: string, l: nat, visiting: set<string>) {
    SameButLevels(c, c2)
    && (forall k :: k in c && c[k].level.Some? ==> c2[k].level == c[k].level)
    && (forall k :: k in c && k in visiting ==> c2[k] == c[k])
    && (id !in c ==> l == 0)
    && (id in c ==> c2[id].level == Some(l))
  }

  /** The level returned is the one memoised for `id`; only levels change; memoised levels and visited records stay. */
  lemma {:induction false} GetLevelFrame(c: map<string, Info>, id: string, visiting: set<string>)
    requires GetLevel(c, id, visiting).Ok?
    ensures FrameOk(c, GetLevel(c, id, visiting).value.0, id, GetLevel(c, id, visiting).value.1, visiting)
    decreases |c.Keys - visiting|
  {
    if id !in c || c[id].level.Some? {
      FrameMemo(c, id, visiting);
    } else if id in visiting {
    } else if !HasParent(c[id]) {
      FrameRoot(c, id, visiting);
    } else {
      Shrinks(c.Keys, visiting, id);
      ParentOk(c, id, visiting);
      GetLevelFrame(c, c[id].parentId.value, visiting + {id});
      FrameParent(c, id, visiting);
    }
  }

  /** The level of a record with a parent is found only when the parent's is. */
  lemma ParentOk(c: map<string, Info>, id: string, visiting: set<string>)
    requires id in c && c[id].level.None? && id !in visiting && HasParent(c[id])
    requires GetLevel(c, id, visiting).Ok?
    ensures GetLevel(c, c[id].parentId.value, visiting + {id}).Ok?
  {
  }

  /** The frame of the parent's call gives the frame of the record's own call. */
  lemma FrameParent(c: map<string, Info>, id: string, visiting: set<string>)
    requires id in c && c[id].level.None? && id !in visiting && HasParent(c[id])
    requires GetLevel(c, c[id].parentId.value, visiting + {id}).Ok?
    requires var sub := GetLevel(c, c[id].parentId.value, visiting + {id}).value;
      FrameOk(c, sub.0, c[id].parentId.value, sub.1, visiting + {id})
    ensures FrameOk(c, GetLevel(c, id, visiting).value.0, id, GetLevel(c, id, visiting).value.1, visiting)
  {
    GetLevelStep(c, id, visiting);
    var sub := GetLevel(c, c[id].parentId.value, visiting + {id}).value;
    FrameStep(c, sub.0, id, c[id].parentId.value, sub.1, visiting);
  }

  /** An id not on the page, or one already levelled, leaves the table as it is. */
  lemma FrameMemo(c: map<string, Info>, id: string, visiting: set<string>)
    requires id !in c || c[id].level.Some?
    ensures var l := if id in c then c[id].level.value else 0;
      GetLevel(c, id, visiting) == Ok((c, l)) && FrameOk(c, c, id, l, visiting)
  {
  }

  /** A record without a parent is memoised at level 0. */
  lemma FrameRoot(c: map<string, Info>, id: string, visiting: set<string>)
    requires id in c && c[id].level.None? && id !in visiting && !HasParent(c[id])
    ensures var c2 := c[id := c[id].(level := Some(0))];
      GetLevel(c, id, visiting) == Ok((c2, 0)) && FrameOk(c, c2, id, 0, visiting)
  {
    SetLevelFrame(c, c, id, 0);
  }

  /** Memoising one more than the parent's level for an unlevelled record keeps the frame. */
  lemma FrameStep(c: map<string, Info>, c2: map<string, Info>, id: string, p: string, l: nat, visiting: set<string>)
    requires id in c && c[id].level.None? && id !in visiting
    requires FrameOk(c, c2, p, l, visiting + {id})
    ensures FrameOk(c, c2[id := c2[id].(level := Some(l + 1))], id, l + 1, visiting)
  {
    assert id in visiting + {id};
    SetLevelFrame(c, c2, id, l + 1);
  }

  /** Memoising a level for an unlevelled record of a table that differs from `c` only in other memoised levels. */
  lemma SetLevelFrame(c: map<string, Info>, c2: map<string, Info>, id: string, l: nat)
    requires SameButLevels(c, c2) && id in c && c2[id] == c[id] && c[id].level.None?
    requires forall k :: k in c && c[k].level.Some? ==> c2[k].level == c[k].level
    ensures var c3 := c2[id := c2[id].(level := Some(l))];
      SameButLevels(c, c3)
      && (forall k :: k in c && c[k].level.Some? ==> c3[k].level == c[k].level)
      && c3[id].level == Some(l)
  {
    var c3 := c2[id := c2[id].(level := Some(l))];
    forall k | k in c
      ensures c3[k].(level := None) == c[k].(level := None)
    {
      if k == id {
        assert c3[k].(level := None) == c2[id].(level := None);
      } else {
        assert c3[k] == c2[k];
      }
    }
  }

  /** A consistent table stays consistent. */
  lemma {:induction false} GetLevelConsistent(c: map<string, Info>, id: string, visiting: set<string>)
    requires GetLevel(c, id, visiting).Ok? && Consistent(c)
    ensures Consistent(GetLevel(c, id, visiting).value.0)
    decreases |c.Keys - visiting|
  {
    if id !in c || c[id].level.Some? {
    } else if id in visiting {
    } else if !HasParent(c[id]) {
      ConsistentAfterRoot(c, id);
    } else {
      Shrinks(c.Keys, visiting, id);
      var p := c[id].parentId.value;
      var sub := GetLevel(c, p, visiting + {id});
      var c2, l := sub.value.0, sub.value.1;
      assert c2.Keys == c.Keys && c2[id] == c[id] && (p in c ==> c2[p].level == Some(l)) && (p !in c ==> l == 0) by {
        GetLevelFrame(c, p, visiting + {id});
        assert id in visiting + {id};
      }
      GetLevelConsistent(c, p, visiting + {id});
      GetLevelStep(c, id, visiting);
      assert p != id;
      ConsistentAfterSet(c2, id, p, l);
    }
  }

  /** For an unlevelled record with a parent, the level is one more than the parent's, memoised on top of the parent's table. */
  lemma GetLevelStep(c: map<string, Info>, id: string, visiting: set<string>)
    requires id in c && c[id].level.None? && id !in visiting && HasParent(c[id])
    requires GetLevel(c, c[id].parentId.value, visiting + {id}).Ok?
    ensures var sub := GetLevel(c, c[id].parentId.value, visiting + {id}).value;
      GetLevel(c, id, visiting) == Ok((sub.0[id := sub.0[id].(level := Some(sub.1 + 1))], sub.1 + 1))
  {
  }

  /** Memoising level 0 for an unlevelled record without a parent keeps the table consistent. */
  lemma ConsistentAfterRoot(c: map<string, Info>, id: string)
    requires Consistent(c) && id in c && c[id].level.None? && !HasParent(c[id])
    ensures Consistent(c[id := c[id].(level := Some(0))])
  {
    var c2 := c[id := c[id].(level := Some(0))];
    forall k | k in c2
      ensures LevelOk(c2, k)
    {
      assert LevelOk(c, k);
    }
  }

  /** Memoising `l + 1` for an unlevelled record whose parent has level `l` (or is not on the page, `l` = 0) keeps the table consistent. */
  lemma ConsistentAfterSet(c2: map<string, Info>, id: string, p: string, l: nat)
    requires Consistent(c2) && id in c2 && c2[id].level.None? && HasParent(c2[id]) && c2[id].parentId.value == p
    requires p in c2 ==> p != id && c2[p].level == Some(l)
    requires p !in c2 ==> l == 0
    ensures Consistent(c2[id := c2[id].(level := Some(l + 1))])
  {
    var c3 := c2[id := c2[id].(level := Some(l + 1))];
    forall k | k in c3
      ensures LevelOk(c3, k)
    {
      assert LevelOk(c2, k);
      if k != id {
        assert c3[k] == c2[k];
        if HasParent(c2[k]) && c2[k].parentId.value == id {
          assert c2[k].level.None?;
        }
      }
    }
  }

  /** A self-parented record that has no level yet is a cycle: RecursionError. */
  lemma SelfParentIsCycle(c: map<string, Info>, id: string)
    requires id in c && c[id].level.None? && HasParent(c[id]) && c[id].parentId.value == id
    ensures GetLevel(c, id, {}) == Err(RecursionError)
  {
    Shrinks(c.Keys, {}, id);
  }

  /** The level pass over the ids, in insertion order. */
  function LevelsUpTo(c: map<string, Info>, order: seq<string>, k: nat): (r: Result<map<string, Info>>)
    requires k <= |order|
    ensures r.Ok? ==> r.value.Keys == c.Keys
  {
    if k == 0 then Ok(c)
    else
      match LevelsUpTo(c, order, k - 1)
      case Err(e) => Err(e)
      case Ok(c1) =>
        match GetLevel(c1, order[k - 1], {})
        case Err(e) => Err(e)
        case Ok((c2, _)) => Ok(c2)
  }

  lemma {:induction false} LevelsErrorSticks(c: map<string, Info>, order: seq<string>, k: nat, m: nat)
    requires k <= m <= |order| && LevelsUpTo(c, order, k).Err?
    ensures LevelsUpTo(c, order, m) == LevelsUpTo(c, order, k)
    decreases m - k
  {
    if k < m {
      LevelsErrorSticks(c, order, k, m - 1);
    }
  }

  /** After the pass over the first `k` ids, each of them has a level, the table is consistent and only levels changed. */
  lemma {:induction false} LevelsFacts(c: map<string, Info>, order: seq<string>, k: nat)
    requires k <= |order| && Consistent(c) && LevelsUpTo(c, order, k).Ok?
    ensures var c2 := LevelsUpTo(c, order, k).value;
      SameButLevels(c, c2) && Consistent(c2)
      && forall j :: 0 <= j < k && order[j] in c ==> c2[order[j]].level.Some?
  {
    if k > 0 {
      LevelsFacts(c, order, k - 1);
      var c1 := LevelsUpTo(c, order, k - 1).value;
      GetLevelFrame(c1, order[k - 1], {});
      GetLevelConsistent(c1, order[k - 1], {});
    }
  }

  /** The loop calling `update_and_get_level` on every stored id. */
  method AssignLevels(c: map<string, Info>, order: seq<string>) returns (r: Result<map<string, Info>>)
    ensures r == LevelsUpTo(c, order, |order|)
  {
    var levels := c;
    var i := 0;
    while i < |order|
      invariant 0 <= i <= |order|
      invariant LevelsUpTo(c, order, i) == Ok(levels)
    {
      var step := GetLevel(levels, order[i], {});
      if step.Err? {
        LevelsErrorSticks(c, order, i + 1, |order|);
        return Err(step.error);
      }
      levels := step.value.0;
      i := i + 1;
    }
    r := Ok(levels);
  }

  // ---------------------------------------------------------------------------------------
  // output

  /** The stored records, in insertion order. */
  function Records(c: map<string, Info>, order: seq<string>): (r: seq<Info>)
    requires forall k :: k in order ==> k in c
    ensures |r| == |order| && forall i :: 0 <= i < |order| ==> r[i] == c[order[i]]
  {
    if |order| == 0 then [] else Records(c, order[..|order| - 1]) + [c[order[|order| - 1]]]
  }

  /** Ascending `seq` order, written as a descending sort on the reversed comparison. */
  predicate SeqLe(a: Info, b: Info) {
    b.seqNum <= a.seqNum
  }

  lemma SeqLePreorder()
    ensures Preorder(SeqLe)
  {
  }

  /** One output line: two spaces per level, then the post's title and link, or the comment's id, author, parent and text. */
  function RenderLine(info: Info): (r: Result<string>)
    ensures r.Err? <==> info.level.None? || (!(info.post.Some? && info.post.value.0 != "") && (info.commentId.None? || info.userId.None?))
  {
    if info.level.None? then Err(TypeError)
    else
      var indent := Repeat("  ", info.level.value);
      var replyTo := if HasParent(info) then ", reply to " + info.parentId.value else "";
      if info.post.Some? && info.post.value.0 != "" then
        Ok(indent + "**[" + info.post.value.0 + "](" + info.post.value.1 + ")**\n")
      else if info.commentId.None? || info.userId.None? then Err(KeyError)
      else
        var text := if info.text.Some? then info.text.value else "";
        Ok(indent + "id: " + info.commentId.value + " (by " + info.userId.value + replyTo + "): " + text + "\n")
  }

  /** Every line is indented by exactly two spaces per level and ends with a newline. */
  lemma RenderLineIndent(info: Info)
    requires RenderLine(info).Ok?
    ensures var s := RenderLine(info).value; var w := 2 * info.level.value;
      |s| > w && s[..w] == Repeat("  ", info.level.value) && (s[w] == '*' || s[w] == 'i') && s[|s| - 1] == '\n'
  {
  }

  function RenderUpTo(recs: seq<Info>, k: nat): (r: Result<string>)
    requires k <= |recs|
  {
    if k == 0 then Ok("")
    else
      match RenderUpTo(recs, k - 1)
      case Err(e) => Err(e)
      case Ok(s) =>
        match RenderLine(recs[k - 1])
        case Err(e) => Err(e)
        case Ok(line) => Ok(s + line)
  }

  lemma {:induction false} RenderErrorSticks(recs: seq<Info>, k: nat, m: nat)
    requires k <= m <= |recs| && RenderUpTo(recs, k).Err?
    ensures RenderUpTo(recs, m) == RenderUpTo(recs, k)
    decreases m - k
  {
    if k < m {
      RenderErrorSticks(recs, k, m - 1);
    }
  }

  /** The output is the records' lines, one after another. */
  lemma {:induction false} RenderLines(recs: seq<Info>, k: nat)
    requires k <= |recs| && RenderUpTo(recs, k).Ok?
    ensures forall i :: 0 <= i < k ==> RenderLine(recs[i]).Ok?
    ensures k > 0 ==> EndsWith(RenderUpTo(recs, k).value, RenderLine(recs[k - 1]).value)
  {
    if k > 0 {
      RenderLines(recs, k - 1);
    }
  }

  method Render(recs: seq<Info>) returns (r: Result<string>)
    ensures r == RenderUpTo(recs, |recs|)
  {
    var contents := "";
    var i := 0;
    while i < |recs|
      invariant 0 <= i <= |recs|
      invariant RenderUpTo(recs, i) == Ok(contents)
    {
      var line := RenderLine(recs[i]);
      if line.Err? {
        RenderErrorSticks(recs, i + 1, |recs|);
        return Err(line.error);
      }
      contents := contents + line.value;
      i := i + 1;
    }
    r := Ok(contents);
  }

  // ---------------------------------------------------------------------------------------
  // parse

  /** The page's own id, which `url2id` gives for the page URL (TypeError for no URL). */
  function PostId(url: Option<string>): Result<string> {
    if url.None? then Err(TypeError) else Url2Id(url.value)
  }

  /** The level pass, then the records in ascending `seq` order. */
  function Arrange(st: Scan): Result<seq<Info>>
    requires ScanOk(st)
  {
    match LevelsUpTo(st.comments, st.order, |st.order|)
    case Err(e) => Err(e)
    case Ok(c) => Ok(SortDesc(Records(c, st.order), SeqLe))
  }

  /** The records in output order, once the scan and the level pass have succeeded. */
  function OutputRecords(md: string, url: Option<string>): Result<seq<Info>> {
    var lines := Split(md, '\n');
    match ScanUpTo(lines, PostId(url), |lines|)
    case Err(e) => Err(e)
    case Ok(st) =>
      ScanUpToOk(lines, PostId(url), |lines|);
      Arrange(st)
  }

  function ParseSpec(opts: Crawl4AI.Options, tools: Crawl4AI.Tools, url: Option<string>, raw: string): Result<Option<string>> {
    match Crawl4AI.Parse(opts, tools, url, raw)
    case Err(e) => Err(e)
    case Ok(None) => Err(AttributeError)
    case Ok(Some(md)) =>
      match OutputRecords(md, url)
      case Err(e) => Err(e)
      case Ok(recs) =>
        match RenderUpTo(recs, |recs|)
        case Err(e) => Err(e)
        case Ok(s) => Ok(Some(s))
  }

  /**
   * Arranging an unlevelled scan lists every stored record once, in ascending `seq` order (ties in
   * insertion order), each with its level set and consistent with its parent's.
   */
  lemma ArrangeOrder(st: Scan)
    requires ScanOk(st) && Unleveled(st) && Arrange(st).Ok?
    ensures var c := LevelsUpTo(st.comments, st.order, |st.order|).value;
      var recs := Arrange(st).value;
      SortedDesc(recs, SeqLe) && multiset(recs) == multiset(Records(c, st.order))
      && SameButLevels(st.comments, c) && Consistent(c)
      && (forall i :: 0 <= i < |recs| ==> recs[i].level.Some?)
  {
    UnleveledConsistent(st.comments);
    LevelsFacts(st.comments, st.order, |st.order|);
    var c := LevelsUpTo(st.comments, st.order, |st.order|).value;
    SeqLePreorder();
    SortDescSorted(Records(c, st.order), SeqLe);
    var recs := Arrange(st).value;
    forall i | 0 <= i < |recs|
      ensures recs[i].level.Some?
    {
      assert recs[i] in multiset(Records(c, st.order));
    }
  }

  /** The output records are the arrangement of the scan of the page's lines, which starts unlevelled. */
  lemma OutputOrder(md: string, url: Option<string>)
    requires OutputRecords(md, url).Ok?
    ensures var lines := Split(md, '\n');
      var st := ScanUpTo(lines, PostId(url), |lines|).value;
      ScanUpTo(lines, PostId(url), |lines|).Ok? && ScanOk(st) && Unleveled(st)
      && OutputRecords(md, url) == Arrange(st)
  {
    var lines := Split(md, '\n');
    ScanUpToOk(lines, PostId(url), |lines|);
    ScanUnleveled(lines, PostId(url), |lines|);
  }

  predicate Unleveled(st: Scan) {
    (forall id :: id in st.comments ==> st.comments[id].level.None?) && st.loose.level.None?
  }

  lemma LineStepUnleveled(st: Scan, l: string, postId: Result<string>)
    requires Unleveled(st) && LineStep(st, l, postId).Ok?
    ensures Unleveled(LineStep(st, l, postId).value)
  {
    if Contains(l, VoteMarker) {
      var links := Relative(LinkMatches(l));
      RecordUnleveled(links, postId, |links|);
      var info := RecordUpTo(links, postId, |links|).value;
      assert LineStep(st, l, postId) == Ok(Store(st, info));
    } else {
      var start := Find(l, ReplyPrefix);
      if start > 0 && !Current(st).originPost {
        var info := Current(st).(text := Some(l[..start - 1]));
        assert LineStep(st, l, postId) == Ok(SetCurrent(st, info));
        assert info.level.None?;
      }
    }
  }

  lemma UnleveledConsistent(c: map<string, Info>)
    requires forall id :: id in c ==> c[id].level.None?
    ensures Consistent(c)
  {
    forall k | k in c
      ensures LevelOk(c, k)
    {
    }
  }

  /** Before the level pass no stored record has a level. */
  lemma ScanUnleveled(lines: seq<string>, postId: Result<string>, k: nat)
    requires k <= |lines| && ScanUpTo(lines, postId, k).Ok?
    ensures Unleveled(ScanUpTo(lines, postId, k).value)
  {
    forall st, l | Unleveled(st) && LineStepFn(postId)(st, l).Ok?
      ensures Unleveled(LineStepFn(postId)(st, l).value)
    {
      LineStepUnleveled(st, l, postId);
    }
    FoldInvariant(LineStepFn(postId), Unleveled, Start, lines, k);
  }

  /** One more line of the scan: its step's state, or its error, which is then the whole scan's. */
  lemma ScanAdvance(lines: seq<string>, postId: Result<string>, i: nat, st: Scan)
    requires i < |lines| && ScanUpTo(lines, postId, i) == Ok(st)
    ensures var next := LineStep(st, lines[i], postId);
      && (next.Ok? ==> ScanUpTo(lines, postId, i + 1) == next)
      && (next.Err? ==> ScanUpTo(lines, postId, |lines|) == next)
  {
    var next := LineStep(st, lines[i], postId);
    assert ScanUpTo(lines, postId, i + 1) == next;
    if next.Err? {
      FoldErrorSticks(LineStepFn(postId), Start, lines, i + 1, |lines|);
    }
  }

  /** The body of the loop over the lines: a vote line starts a record, a reply line gives the current record its text. */
  method ScanLine(st: Scan, l: string, postId: Result<string>) returns (r: Result<Scan>)
    ensures r == LineStep(st, l, postId)
  {
    if Contains(l, VoteMarker) {
      var links := Relative(LinkMatches(l));
      var info := BuildRecord(links, postId);
      if info.Err? {
        return Err(info.error);
      }
      r := Ok(Store(st, info.value));
    } else {
      var start := Find(l, ReplyPrefix);
      if start > 0 && !Current(st).originPost {
        r := Ok(SetCurrent(st, Current(st).(text := Some(l[..start - 1]))));
      } else {
        r := Ok(st);
      }
    }
  }

  /** The loop over the page's lines. */
  method ScanLines(lines: seq<string>, postId: Result<string>) returns (r: Result<Scan>)
    ensures r == ScanUpTo(lines, postId, |lines|)
  {
    var st := Start;
    for i := 0 to |lines|
      invariant ScanUpTo(lines, postId, i) == Ok(st)
    {
      var next := ScanLine(st, lines[i], postId);
      ScanAdvance(lines, postId, i, st);
      if next.Err? {
        return next;
      }
      st := next.value;
    }
    r := Ok(st);
  }

  /** `parse`: the crawler's markdown, scanned line by line into records, levelled, ordered and rendered. */
  method Parse(opts: Crawl4AI.Options, tools: Crawl4AI.Tools, url: Option<string>, raw: string) returns (r: Result<Option<string>>)
    ensures r == ParseSpec(opts, tools, url, raw)
  {
    var md := Crawl4AI.Parse(opts, tools, url, raw);
    if md.Err? {
      return Err(md.error);
    }
    if md.value.None? {
      return Err(AttributeError);
    }
    var lines := Split(md.value.value, '\n');
    var st := ScanLines(lines, PostId(url));
    if st.Err? {
      return Err(st.error);
    }
    ScanUpToOk(lines, PostId(url), |lines|);
    var levels := AssignLevels(st.value.comments, st.value.order);
    if levels.Err? {
      return Err(levels.error);
    }
    var recs := SortDesc(Records(levels.value, st.value.order), SeqLe);
    var contents := Render(recs);
    if contents.Err? {
      return Err(contents.error);
    }
    r := Ok(Some(contents.value));
  }
}
