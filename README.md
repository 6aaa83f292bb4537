# chat_with_llm, modelled in Dafny

`chat_with_llm` is a set of Python tools that fetch web pages, videos' subtitles and news listings, cache them, turn them into text and hand that text to LLM chat services, saving each exchange as a chat record. This project models, in Dafny, the parts of it that decide *what* is fetched, cached, parsed, selected and saved:

- **The retrieval-and-cache engine** (`OnlineContent`, with the older single-item `LegacyOnlineContent`). A store holds three slots per site id: `.raw`, `.parsed` and `.meta`. For each input, `retrieve_many` resolves the URL or id and checks the slots. It queues misses for one batch fetch, re-parses raw-only hits, and turns fetch or parse failures into `None`. It then normalises the metadata and writes the slots back. A registry maps names to retrievers. The file store (`Storage`) is a class over a map from file names to contents.
- **Identifier schemes** of the retrievers: `Crawl4AI` (reversed host labels, a path digest and an hour bucket), `HNComments` (a digits-only item id) and `Mrxwlb` / `LegacyMrxwlb` (a date segment and a run of consecutive days, over `Calendar`).
- **Text processors**, each a sequential scanner written out without regular expressions:
  - the markdown link scanner, boilerplate stripper and duplicate-line remover (`WebUtils`, and its copy `HtmlUtils`);
  - the Hacker News comment-tree flattener (`HNComments`);
  - the GitHub-trending and front-page parsers (`GithubTrending`, `HackerNews`);
  - the chat-record response extractor and markdown renderer (`MarkdownResponse`);
  - the SRT-to-paragraph joiner (`Youtube`);
  - the video-title clean-up (`VideoSummary`).
- **Lookup and selection tables**:
  - the model alias and delay tables (`Llm`, `LegacyLlm`);
  - newest-n record selection (`GenerateSpeech`) and pending-summary classification (`GenSummary`);
  - stock-line grouping (`XwlbStocks`);
  - subtitle language selection (`Downsub`, `LegacyDownsub`, `SubtitleScripts`, `Youtube`).

Python's own string operations that the code relies on are defined once in `PyStr`:

- `split`, `join`, `strip`, `replace`, `startswith`, `find` and `int`;
- leftmost regular-expression search, `findall` and `sub`, over a pattern given as a matcher at a position.

`Wrappers` holds `Option`, `Result` (with the Python exception names that appear) and folds over prefixes. `Sorting` gives Python's stable `list.sort` with `reverse=True`.

Code that works step by step is modelled step by step. A mutated object is a `class` whose methods have `modifies` clauses. A loop is a `method` with a `while` loop. Each such method is proved equal to a specification function, and the source's promises are proved about that function as lemmas. Clocks, digests, HTTP gets, crawlers, parsers and JSON codecs are parameters.

Where the code does something other than its names or comments suggest, the model follows the code:

- the engine's fetch phase saves every fetched item under the site id of the *last* input;
- the base `fetch_many` calls a `fetch_safe` that does not exist;
- `MRXWLB.id2url` accepts every id that is not all digits;
- the priority loop of `scripts/summarize_subtitle.py` never breaks.

## Model

| member | source | states |
|---|---|---|
| Storage.PathJoin | chat_with_llm/storage.py:37 | `os.path.join` on POSIX: an absolute second part replaces the first; otherwise the result starts with the first part and ends with the second |
| Storage.StoragePath | chat_with_llm/storage.py:36-41 | a non-empty identifier gives `join(base, identifier)`; a missing or empty identifier gives the base itself |
| Storage.StoragePathInjective | chat_with_llm/storage.py:36-41 | under one base, two non-empty relative identifiers share a directory only when they are equal |
| Storage.StorageLocation | chat_with_llm/storage.py:65-71 | succeeds exactly for class `file` and one of the five storage types; another class raises ValueError; an unknown type raises AssertionError; otherwise the directory is the identifier's directory under `join(base, type)` |
| Storage.ContentStorageFile.constructor | chat_with_llm/storage.py:33-43 | keeps the identifier, sets the directory by `StoragePath`, and starts from the files already there |
| Storage.ContentStorageFile.Load | chat_with_llm/storage.py:45-50 | returns the contents exactly when the file exists, and None otherwise |
| Storage.ContentStorageFile.Save | chat_with_llm/storage.py:52-53 | writes or overwrites that one file; every other file keeps its contents |
| Storage.ContentStorageFile.Has | chat_with_llm/storage.py:55-56 | true exactly when the file exists |
| Storage.ContentStorageFile.List | chat_with_llm/storage.py:58-63 | lists every file name of the directory exactly once and nothing else |
| Storage.GetStorage | chat_with_llm/storage.py:65-71 | fails exactly when `StorageLocation` does, with its exception; otherwise a fresh store at that directory holding the existing files |
| Calendar.NextOfPrev | chat_with_llm/web/mrxwlb.py:39 | one day forward undoes one day back, for every valid date |
| Calendar.PrevOfNext | chat_with_llm/web/mrxwlb.py:43 | one day back undoes one day forward, for every valid date |
| Calendar.AddDaysSucc | chat_with_llm/web/mrxwlb.py:43 | `d + timedelta(days=k+1)` is the day after `d + timedelta(days=k)`, for negative `k` too |
| Calendar.AddDaysMonotone | chat_with_llm/web/mrxwlb.py:42-43 | a larger day offset gives a strictly later date |
| Calendar.AddDaysInjective | chat_with_llm/web/mrxwlb.py:42-43 | different day offsets from one date give different dates |
| Calendar.SubHours | chat_with_llm/web/mrxwlb.py:35 | subtracting fewer than 24 hours stays on the same day when the hour allows, and otherwise moves to the previous day with the hour wrapped |
| Calendar.AddHoursInjective | chat_with_llm/web/c4ai.py:126 | different hour offsets from one instant give different instants |
| Calendar.ParseYmd | chat_with_llm/web/mrxwlb.py:38 | `strptime(s, '%Y%m%d')` with its variable-width month and day: a result is a valid date in years 1-9999, read from six to eight characters whose first four are the year's digits |
| Calendar.DayAt | chat_with_llm/web/mrxwlb.py:38 | `%d` takes its first matching alternative: a day 1-31 one or two characters wide |
| Calendar.MonthDayAt | chat_with_llm/web/mrxwlb.py:38 | `%m%d` gives a month 1-12 and a day 1-31 over two to four characters, trying the two-digit month first |
| Calendar.ParseYmdEightDigits | chat_with_llm/web/mrxwlb.py:38 | on eight digits, `strptime` is the fixed-width reading of year, month and day, None exactly when that is not a date |
| Calendar.ParseOfFormat | chat_with_llm/web/mrxwlb.py:38-43 | `strptime` of `strftime('%Y%m%d')` gives the date back, for the years 1 to 9999 |
| Calendar.FormatInjective | chat_with_llm/web/mrxwlb.py:43 | `%Y%m%d` tells valid dates apart |
| Calendar.FormatYmdLength | chat_with_llm/web/mrxwlb.py:43 | `%Y%m%d` of a date in years 0 to 9999 has eight characters |
| Calendar.FormatYmdHInjective | chat_with_llm/web/c4ai.py:127 | `%Y%m%d%H` tells valid instants apart |
| Calendar.NextDay | chat_with_llm/web/mrxwlb.py:43 | the day after a valid date is a valid date |
| Calendar.PrevDay | chat_with_llm/web/mrxwlb.py:39 | the day before a valid date is a valid date |
| Calendar.NextDayAfter | chat_with_llm/web/mrxwlb.py:43 | the next day is strictly later |
| Calendar.AddDays | chat_with_llm/web/mrxwlb.py:39-43 | `d + timedelta(days=k)` of a valid date is a valid date |
| Calendar.FormatYmd | chat_with_llm/web/mrxwlb.py:43 | `%Y%m%d` gives digits only |
| Calendar.FormatYmdH | chat_with_llm/web/c4ai.py:127 | `%Y%m%d%H` gives digits only |
| Calendar.AddHours | chat_with_llm/web/c4ai.py:126 | `t + timedelta(hours=h)` of a valid instant is a valid instant |
| PyStr.Find | chat_with_llm/web/hn_comments.py:144 | `s.find(p)`: -1 exactly when `p` does not occur; otherwise an index where `p` occurs, with no occurrence before it |
| PyStr.SplitJoin | chat_with_llm/llm.py:176 | joining the parts of `s.split(c)` with `c` gives `s` back |
| PyStr.SplitOfJoin | chat_with_llm/llm.py:176 | splitting a join of separator-free parts gives the parts back |
| PyStr.SplitMany | chat_with_llm/web/c4ai.py:111 | a string splits into more than one part exactly when it holds the separator |
| PyStr.SplitParts | chat_with_llm/web/c4ai.py:111 | no part of a split holds the separator |
| PyStr.SplitNoSep | chat_with_llm/web/c4ai.py:111 | a string without the separator splits into itself alone |
| PyStr.SplitAround | chat_with_llm/web/c4ai.py:111 | the split of `a + c + b` is the split of `a` followed by the split of `b` |
| PyStr.SplitLast | chat_with_llm/llm.py:176 | the last part is the separator-free suffix after the last separator, or the whole string when there is no separator |
| PyStr.ReplaceCharRemoves | chat_with_llm/llm.py:83 | replacing a character by text without it removes every occurrence of it |
| PyStr.ReplaceKeepsAbsent | scripts/sum_github_trending.py:113 | `replace` never introduces a character absent from both the text and the replacement |
| PyStr.ReplaceCharMap | chat_with_llm/llm.py:83 | replacing one character by another maps the string position by position |
| PyStr.ReplaceAbsent | chat_with_llm/web/utils.py:7 | replacing text that does not occur leaves the string unchanged |
| PyStr.ReplaceSuffix | scripts/generate_speech.py:114 | when `o` occurs only as the suffix, `replace` changes just that suffix |
| PyStr.LStripSpaces | scripts/test_read_xwlb_stocks.py:26 | `lstrip` removes a prefix made of whitespace |
| PyStr.RStripSpaces | scripts/test_read_xwlb_stocks.py:26 | `rstrip` removes a suffix made of whitespace |
| PyStr.Strip | scripts/test_read_xwlb_stocks.py:26 | `strip` is no longer than the string and neither starts nor ends with whitespace |
| PyStr.StripUnchanged | scripts/test_read_xwlb_stocks.py:26 | a string that neither starts nor ends with whitespace is its own strip |
| PyStr.StripBlank | scripts/test_read_xwlb_stocks.py:26-28 | `strip` is empty exactly when every character is whitespace |
| PyStr.StripInside | scripts/test_read_xwlb_stocks.py:26 | `strip` adds no character that was not in the string |
| PyStr.Word | scripts/sum_github_trending.py:105 | the longest whitespace-free prefix: whitespace follows it unless it reaches the end |
| PyStr.Span | scripts/sum_github_trending.py:42-43 | a regex character-class run starting at `i` stops at a rejected character or at the end |
| PyStr.SpanAccepts | scripts/sum_github_trending.py:42-43 | every character of that run is accepted |
| PyStr.SpanOf | scripts/sum_github_trending.py:42-43 | an accepted run that ends at a rejected character or at the end is that run |
| PyStr.SearchLeftmost | scripts/test_read_xwlb_stocks.py:37 | `re.search` returns the match at the leftmost position that has one, and returns nothing only when no position matches |
| PyStr.SearchAt | scripts/sum_github_trending.py:43 | a match at `q` with no match before it is what `re.search` returns |
| PyStr.SubNoMatch | scripts/extract_markdown_response.py:52-63 | `re.sub` leaves the text unchanged where the pattern matches at no position |
| PyStr.LastNewline | scripts/extract_markdown_response.py:63 | the last newline in a range, or none exactly when the range has no newline |
| PyStr.FindAllEmpty | chat_with_llm/web/hn_comments.py:114 | `re.findall` returns nothing exactly when the pattern matches at no position |
| PyStr.FindAllAll | chat_with_llm/web/hn_comments.py:114-115 | what holds of every possible match holds of every item `findall` returns |
| PyStr.Lower | scripts/downsub.py:51 | `lower()` maps each ASCII capital to its small letter and keeps every other character |
| PyStr.PyPrefix | scripts/generate_speech.py:95 | `s[:n]` is the first `n` items, or all of them when `n` is too large; a negative `n` drops items from the end |
| PyStr.Reverse | chat_with_llm/web/c4ai.py:120 | `s[::-1]` holds the items in reverse order |
| PyStr.Repeat | chat_with_llm/web/hn_comments.py:155 | `s * n` has `n` times the length of `s` |
| PyStr.NatToStr | chat_with_llm/llm.py:176 | `str(n)` of a natural number is a non-empty string of digits |
| PyStr.DecValueOfNatToStr | chat_with_llm/llm.py:176 | the decimal value of `str(n)` is `n` |
| PyStr.PyInt | chat_with_llm/llm.py:176 | `int(s)` succeeds exactly when `s`, stripped and without its sign, is digits with single underscores between them |
| PyStr.PyIntOfDigits | scripts/sum_youtube.py:22-25 | `int()` of a string of ASCII digits is its decimal value |
| PyStr.PyIntOfNatToStr | chat_with_llm/llm.py:176 | `int(str(n)) == n` |
| PyStr.PyIntRejectsTrailing | chat_with_llm/llm.py:176 | `int()` fails on a text ending in a character that is neither whitespace, digit nor underscore |
| Wrappers.Tabulate | chat_with_llm/web/mrxwlb.py:41-49 | a list built by a loop that can raise has one element per step when no step raises |
| Wrappers.TabulateErrorSticks | chat_with_llm/web/mrxwlb.py:42-44 | once a step of the loop raises, the loop's outcome is that exception however many steps follow |
| Wrappers.TabulateOk | chat_with_llm/web/mrxwlb.py:42-44 | when no step raises, the loop succeeds and its i-th element is the value of step i |
| Wrappers.Gather | scripts/extract_markdown_response.py:24-32 | a loop that appends only some of its items yields no more items than it has steps |
| Wrappers.GatherMembers | scripts/extract_markdown_response.py:24-32 | what such a loop collects is exactly what some step yields |
| Wrappers.GatherAllSome | scripts/extract_markdown_response.py:24-32 | when every step yields, the i-th item collected is the one of step i |
| Wrappers.UnionUpToMembers | scripts/sum_github_trending.py:271-287 | a loop adding sets into one set holds exactly what some step added |
| Wrappers.FoldInvariant | chat_with_llm/web/hn_comments.py:110-146 | a property every successful step keeps holds of the outcome of a line-by-line parse |
| Wrappers.FoldErrorSticks | chat_with_llm/web/hn_comments.py:110-146 | once a line-by-line parse raises, later lines do not change the outcome |
| Sorting.Insert | scripts/sum_github_trending.py:253 | inserting an element adds exactly that element to the multiset of the list |
| Sorting.SortDesc | scripts/sum_github_trending.py:253 | the sorted list is a permutation of the input |
| Sorting.InsertSorted | scripts/sum_github_trending.py:253 | inserting into a descending list keeps it descending |
| Sorting.SortDescSorted | scripts/sum_github_trending.py:253 | `sort(key, reverse=True)` leaves the list in descending order of the key |
| Sorting.TiesAppend | scripts/sum_github_trending.py:253 | the elements equivalent to `k` in a concatenation are those of each part, in order |
| Sorting.InsertTies | scripts/sum_github_trending.py:253 | insertion places a new element after every element equivalent to it |
| Sorting.SortDescStable | chat_with_llm/web/hn_comments.py:68 | the sort is stable: elements with equal keys keep their original relative order |
| Sorting.StrLeTotal | scripts/sum_hackernews.py:136 | any two strings are ordered by Python's string comparison |
| Sorting.StrLeTrans | scripts/sum_hackernews.py:136 | Python's string comparison is transitive |
| Sorting.StrLeAntisym | scripts/sum_hackernews.py:136 | two strings each `<=` the other are equal |
| Sorting.StrLePreorder | scripts/sum_hackernews.py:136 | Python's string comparison is a total preorder, so the stable sort's guarantees apply to it |
| Sorting.TakeSorted | scripts/sum_github_trending.py:266-268 | the first `n` of a descending list stay descending and are at least every element left out |
| Mrxwlb.Url2Id | chat_with_llm/web/mrxwlb.py:18-26 | `url2id` raises RuntimeError exactly when the URL is not under the base URL |
| Mrxwlb.Url2IdSegment | chat_with_llm/web/mrxwlb.py:22-26 | the id is the last path segment, or the one before a final '/', and holds no '/' |
| Mrxwlb.Id2Url | chat_with_llm/web/mrxwlb.py:28-32 | as written, `id2url` raises exactly for an all-digit id whose length is not 8, and otherwise gives a URL under the base URL ending in '/' |
| Mrxwlb.IdRoundTrip | chat_with_llm/web/mrxwlb.py:18-32 | `url2id(id2url(id)) == id` for every accepted id without '/' |
| Mrxwlb.Id2UrlChecked | chat_with_llm/web/mrxwlb.py:29-30 | the check the error message describes: success exactly for eight digits |
| Mrxwlb.Id2UrlAcceptsNonDate | chat_with_llm/web/mrxwlb.py:29 | the id `latest` is accepted as written and refused by the checked version |
| Mrxwlb.Id2UrlCheckedDates | chat_with_llm/web/mrxwlb.py:28-32 | every formatted date is accepted by the checked version, the same URL as the original, and round-trips through `url2id` |
| Mrxwlb.DateEnd | chat_with_llm/web/mrxwlb.py:35-36 | `date_end` is the parameter when present, else 21 hours before now formatted `YYYYMMDD`; a clock before year 1 is an OverflowError |
| Mrxwlb.List | chat_with_llm/web/mrxwlb.py:34-49 | the loop of `list` produces exactly the specification `ListSpec` |
| Mrxwlb.ListErrors | chat_with_llm/web/mrxwlb.py:38-39 | an unreadable end date is a ValueError; a first day before year 1 an OverflowError |
| Mrxwlb.ListDays | chat_with_llm/web/mrxwlb.py:38-49 | the list has `max(n, 0)` URLs, one per consecutive day, ending at the end date |
| Mrxwlb.ListEndsAt | chat_with_llm/web/mrxwlb.py:39-43 | the days from `d1 - (n-1)` advance one day at a time and reach `d1` |
| Mrxwlb.ListUrls | chat_with_llm/web/mrxwlb.py:42-44 | with both ends in range, every day's URL is made and none raises |
| Mrxwlb.AddDaysCompose | chat_with_llm/web/mrxwlb.py:39-43 | adding `j` days then `k` days is adding `j + k` days |
| Mrxwlb.DayUrlOk | chat_with_llm/web/mrxwlb.py:43-44 | a day between two in-range days is in range and gets the URL of its formatted date |
| LegacyMrxwlb.Fetch | web/mrxwlb.py:30-37 | `fetch` propagates the resolution error, else succeeds exactly when the HTTP get does, giving the resolved URL and id, empty metadata and the body |
| LegacyMrxwlb.Parse | web/mrxwlb.py:39-45 | `parse` always returns text: the element's text, or "" when the page has no news-content element |
| LegacyMrxwlb.FetchById | web/mrxwlb.py:24-37 | fetching a date id fetches the date's page and reports that id |
| LegacyMrxwlb.FetchByUrl | web/mrxwlb.py:14-37 | fetching a page URL keeps the URL and takes the id from its last segment |
| LegacyMrxwlb.FetchedIdsAgree | web/mrxwlb.py:14-37 | the id and URL of a successful fetch resolve to each other again |
| LegacyOnlineContent.ParseUrlId | web/online_content.py:60-68 | input starting with `http` is a URL whose id comes from `url2id`; anything else is an id whose URL comes from `id2url`; either's exception propagates |
| LegacyOnlineContent.SaveMeta | web/online_content.py:87-89 | `url` is added to the metadata only when the URL is non-empty and the key is absent |
| LegacyOnlineContent.SaveSpec | web/online_content.py:86-96 | `save` writes exactly the metadata, raw and parsed files that are given, and no other file |
| LegacyOnlineContent.RetrieveFetches | web/online_content.py:23-28 | with `force_fetch` or no raw file, the fetched document's parse is returned, and with `update_cache` raw, parsed and metadata are saved; without it nothing changes |
| LegacyOnlineContent.RetrieveReparses | web/online_content.py:30-35 | re-parsing a cached raw file returns its parse and changes no file but the parsed one |
| LegacyOnlineContent.RetrieveCached | web/online_content.py:36-37 | with the raw file cached and neither flag, the cached parse is returned and nothing is written |
| LegacyOnlineContent.FileStore.constructor | web/online_content.py:102-105 | the store starts over the directory's existing files |
| LegacyOnlineContent.FileStore.Load | web/online_content.py:107-112 | `load` gives the file's contents or None when it is absent |
| LegacyOnlineContent.FileStore.Save | web/online_content.py:114-115 | `save` sets one file and leaves the others |
| LegacyOnlineContent.FileStore.Has | web/online_content.py:117-118 | `has` holds exactly for a stored key |
| LegacyOnlineContent.FileStore.List | web/online_content.py:120-126 | `list` returns each id with a `.parsed` file, once, and nothing else |
| LegacyOnlineContent.ParsedKeyInjective | web/online_content.py:96 | two ids never share a parsed file name |
| LegacyOnlineContent.NotParsedKey | web/online_content.py:123 | a name not ending in `.parsed` is no id's parsed file |
| LegacyOnlineContent.LegacyOnlineContent.constructor | web/online_content.py:8-11 | a retriever's store is `web_cache/<name>` |
| LegacyOnlineContent.LegacyOnlineContent.Save | web/online_content.py:86-96 | the method writes what `SaveSpec` describes |
| LegacyOnlineContent.LegacyOnlineContent.LoadRaw | web/online_content.py:73-79 | `load_raw` propagates the resolution error, else returns URL, id, decoded metadata and raw file, or the JSON error |
| LegacyOnlineContent.LegacyOnlineContent.LoadParsed | web/online_content.py:81-84 | `load_parsed` returns the id's parsed file or None |
| LegacyOnlineContent.LegacyOnlineContent.Retrieve | web/online_content.py:19-37 | `retrieve` produces the store and result of `RetrieveSpec` |
| LegacyOnlineContent.LegacyOnlineContent.ListCache | web/online_content.py:98-99 | `list_cache` lists each id with a parsed file once |
| LegacyOnlineContent.Registry.constructor | web/online_content.py:128 | the registry starts empty |
| LegacyOnlineContent.Registry.Add | web/online_content.py:129-133 | `add_online_retriever` registers an OnlineContent under a new name, or raises AssertionError and changes nothing |
| LegacyOnlineContent.Registry.Get | web/online_content.py:135-136 | `get_online_retriever` returns the registered retriever or raises KeyError |
| LegacyOnlineContent.Registry.List | web/online_content.py:138-139 | `list_online_retrievers` returns the names in registration order, exactly the registered ones |
| OnlineContent.SlotKeysDistinct | chat_with_llm/web/online_content.py:31-32 | the `.raw`, `.meta` and `.parsed` files of any two ids never coincide |
| OnlineContent.ParseUrlId | chat_with_llm/web/online_content.py:126-134 | input starting with `http` is a URL whose id comes from `url2id`, anything else an id whose URL comes from `id2url`; either's exception propagates |
| OnlineContent.LoadRawSpec | chat_with_llm/web/online_content.py:136-140 | a missing metadata file is a TypeError; otherwise the decoded metadata and the raw file, None when it is missing |
| OnlineContent.SaveSlots | chat_with_llm/web/online_content.py:145-153 | `save` writes exactly the given slots of the id and leaves every other file |
| OnlineContent.SafeParse | chat_with_llm/web/online_content.py:97-102 | `safe_parse` is the parse, or None when the parse raises |
| OnlineContent.ResolveUrl | chat_with_llm/web/online_content.py:34-39 | an input's own URL is kept; with no URL and no raw file, RuntimeError; with no URL and a raw file, the cached metadata's `url` (None if absent), and the metadata's read error if it cannot be read |
| OnlineContent.ScanUpTo | chat_with_llm/web/online_content.py:29-53 | a first loop that completes has one result per input, and every queued position holds a None placeholder, in increasing order |
| OnlineContent.NormalizedMeta | chat_with_llm/web/online_content.py:69-74 | saved metadata always has `url` (the fetched one, else the requested URL), has `redirect_url` when the final URL differs, and keeps every other fetched key |
| OnlineContent.FetchStep | chat_with_llm/web/online_content.py:57-79 | one iteration of the second loop: a failed fetch or an empty/raising parse sets the slot to None and writes nothing; otherwise the slot holds the parse and, with `update_cache`, `lastId`'s meta/raw/parsed files hold the normalized metadata (`url`, `redirect_url` added), the raw text and the parse; only `lastId`'s three files can change |
| OnlineContent.FetchUpTo | chat_with_llm/web/online_content.py:57-79 | the second loop keeps the number of results; with `update_cache`, `lastId`'s three files hold the metadata, raw text and parse of the last fetch that saved, and nothing is written when none saved |
| OnlineContent.LastSaved | chat_with_llm/web/online_content.py:65-77 | the index of the last fetch result that reaches the save, or None when none does |
| OnlineContent.PendingUrls | chat_with_llm/web/online_content.py:56 | the batch fetched is the queued URLs, in queue order |
| OnlineContent.RetrieveSpec | chat_with_llm/web/online_content.py:23-24 | `retrieve` is the single result and cache of `retrieve_many` on a one-element list |
| OnlineContent.RetrieveManyLength | chat_with_llm/web/online_content.py:26-81 | a successful `retrieve_many` returns one result per input |
| OnlineContent.ScanQueuesIff | chat_with_llm/web/online_content.py:41-43 | an input is queued, with a None placeholder, exactly when `force_fetch` is set or its raw file is missing |
| OnlineContent.CacheHit | chat_with_llm/web/online_content.py:52-53 | with neither flag and both files cached, the parsed file is returned and nothing is written, for a URL and for a bare id whose metadata is readable |
| OnlineContent.ReparseWritesParsedOnly | chat_with_llm/web/online_content.py:45-51 | a re-parse writes only the parsed file, and nothing without `update_cache` |
| OnlineContent.Reparse | chat_with_llm/web/online_content.py:45-51 | a re-parse parses the raw file at the metadata's `redirect_url` (default: the URL); that parse is the input's result, and with `update_cache` a non-None parse is the new parsed file; a raising parse or unreadable metadata raises |
| OnlineContent.UnresolvableNeedsCache | chat_with_llm/web/online_content.py:34-39 | an id without a URL and without a raw file raises RuntimeError |
| OnlineContent.FailedFetchWritesNothing | chat_with_llm/web/online_content.py:58-67 | a failed fetch or an empty parse leaves None and writes nothing |
| OnlineContent.ScanNoCacheNoWrite | chat_with_llm/web/online_content.py:49-50 | without `update_cache` the first loop writes nothing |
| OnlineContent.ScanStepNoWrite | chat_with_llm/web/online_content.py:49-50 | without `update_cache` one pass of the first loop leaves the cache as it was |
| OnlineContent.FetchNoCacheNoWrite | chat_with_llm/web/online_content.py:76-77 | without `update_cache` the second loop writes nothing |
| OnlineContent.NoUpdateCacheNoWrite | chat_with_llm/web/online_content.py:26-81 | without `update_cache` `retrieve_many` leaves the cache as it found it |
| OnlineContent.FetchWritesOnlyLastId | chat_with_llm/web/online_content.py:76-77 | the second loop saves under `site_id`, left over from the first loop, so only the last input's files change, and with `update_cache` they hold the last saving fetch's metadata, raw text and parse |
| OnlineContent.FetchResultsInPlace | chat_with_llm/web/online_content.py:57-79 | an unqueued position keeps its first-loop result; a queued one holds None or the non-empty parse of its own fetch |
| OnlineContent.ThreadPoolFetchMany | chat_with_llm/web/online_content.py:83-88 | as written, `fetch_many` names the missing `fetch_safe` and always raises AttributeError |
| OnlineContent.ThreadPoolRetrieveFails | chat_with_llm/web/online_content.py:55-56 | so any call that has to fetch ends in AttributeError |
| OnlineContent.SafeFetchMany | chat_with_llm/web/online_content.py:90-95 | the intended `fetch_many`: never raises, one result per URL, None exactly where that URL's fetch raised |
| OnlineContent.SafeRetrieveSucceeds | chat_with_llm/web/online_content.py:26-81 | with the intended `fetch_many`, a call whose inputs all resolve succeeds with one result per input |
| OnlineContent.OnlineContent.constructor | chat_with_llm/web/online_content.py:12-20 | the retriever keeps its name, description and flags, and its store is `get_storage('web_cache', name)` |
| OnlineContent.OnlineContent.LoadRaw | chat_with_llm/web/online_content.py:136-140 | the method returns `LoadRawSpec` of the current store |
| OnlineContent.OnlineContent.Save | chat_with_llm/web/online_content.py:145-153 | the store becomes `SaveSlots` of the old store |
| OnlineContent.OnlineContent.ScanOne | chat_with_llm/web/online_content.py:30-53 | one iteration writes what `ScanStep` describes, and nothing when it raises |
| OnlineContent.OnlineContent.FetchOne | chat_with_llm/web/online_content.py:58-79 | one iteration of the second loop does what `FetchStep` describes |
| OnlineContent.OnlineContent.ScanAll | chat_with_llm/web/online_content.py:29-53 | the first loop ends in the state `ScanUpTo` describes |
| OnlineContent.OnlineContent.FetchAll | chat_with_llm/web/online_content.py:57-79 | the second loop runs over the `zip` of queue and results, as `FetchUpTo` describes |
| OnlineContent.OnlineContent.RetrieveMany | chat_with_llm/web/online_content.py:26-81 | `retrieve_many` ends in the store and result of `RetrieveManySpec` |
| OnlineContent.OnlineContent.Retrieve | chat_with_llm/web/online_content.py:23-24 | `retrieve` ends in the store and result of `RetrieveSpec` |
| OnlineContent.ScanStopsAtError | chat_with_llm/web/online_content.py:29-53 | once the first loop raises, later inputs change nothing |
| OnlineContent.Registry.constructor | chat_with_llm/web/online_content.py:186 | the registry starts empty |
| OnlineContent.Registry.Add | chat_with_llm/web/online_content.py:187-191 | only OnlineContent subclasses under new names are added; otherwise AssertionError and nothing changes |
| OnlineContent.Registry.Get | chat_with_llm/web/online_content.py:193-197 | an unknown name raises RuntimeError; a known one is constructed with the parameters |
| OnlineContent.Registry.List | chat_with_llm/web/online_content.py:199-200 | every registered name once, in registration order |
| WebUtils.HostLabels | chat_with_llm/web/utils.py:7-10 | the host part of a URL splits into at least one label |
| WebUtils.SiteParts | chat_with_llm/web/utils.py:18-23 | the labels the loop collects are a run of the reversed labels from where it starts |
| WebUtils.UrlToSiteIsSuffix | chat_with_llm/web/utils.py:5-25 | the site is the last one to three host labels joined by '.'; all but its first label are top-level domains, and it stops early only at a label that is not one |
| WebUtils.SiteOfLabels | chat_with_llm/web/utils.py:5-25 | for any non-empty list of host labels the site is its last one to three labels; every label after the first of them is a top-level domain, and when fewer than three are taken while more exist, the first of them is not one |
| WebUtils.SitePartsBounds | chat_with_llm/web/utils.py:18-23 | the walk takes at most three labels, continues only past top-level domains at positions 0 and 1, and stops at the first other label |
| WebUtils.UrlToSite | chat_with_llm/web/utils.py:5-25 | the loop with its `break` computes `UrlToSiteSpec` |
| WebUtils.LinkStep | chat_with_llm/web/utils.py:36-52 | one character of the scan keeps the bracket bookkeeping consistent |
| WebUtils.LinkStepOk | chat_with_llm/web/utils.py:36-52 | one character of the scan keeps every recorded link well formed |
| WebUtils.ScanUpTo | chat_with_llm/web/utils.py:35-52 | the scan's bookkeeping holds after every prefix |
| WebUtils.ScanUpToOk | chat_with_llm/web/utils.py:35-52 | after every prefix, the open link starts at '[' and every recorded link is well formed and in order |
| WebUtils.Links | chat_with_llm/web/utils.py:27-54 | every link spans `[`..`)`, its text lies between the `[` and a later `]` inside it, and links are in order without overlap |
| WebUtils.ExtractLinks | chat_with_llm/web/utils.py:27-54 | the character loop of `extract_links_from_markdown` returns `Links(s)` |
| WebUtils.LinkTextShorter | chat_with_llm/web/utils.py:43-48 | a link's text is at least three characters shorter than its span |
| WebUtils.RebuildLength | chat_with_llm/web/utils.py:67-74 | replacing the links by their texts shortens the line by the spans and lengthens it by the texts, so by at least three per link |
| WebUtils.StripLine | chat_with_llm/web/utils.py:62-76 | a line is dropped exactly when its links cover more than nine tenths of it; a link-free line is kept as it is |
| WebUtils.KeptUpTo | chat_with_llm/web/utils.py:61-76 | no more lines come out than go in |
| WebUtils.KeptLinkFree | chat_with_llm/web/utils.py:56-78 | text without links comes through `strip_boilerplate` unchanged |
| WebUtils.RebuildLine | chat_with_llm/web/utils.py:67-74 | the inner loop rebuilds the line as `RebuildFrom` describes |
| WebUtils.StripBoilerplate | chat_with_llm/web/utils.py:56-78 | the line loop computes `StripBoilerplateSpec` |
| WebUtils.NormLine | chat_with_llm/web/utils.py:87-91 | a line is kept or emptied, nothing else |
| WebUtils.NormLineBlank | chat_with_llm/web/utils.py:87 | a line is emptied exactly when it is whitespace only |
| WebUtils.Normalize | chat_with_llm/web/utils.py:86-91 | every line is normalised in place, none added or lost |
| WebUtils.DedupUpTo | chat_with_llm/web/utils.py:98 | deduplication never adds lines |
| WebUtils.DedupMembers | chat_with_llm/web/utils.py:93-98 | a line survives exactly when it occurs and is not empty-and-frequent-and-unlisted boilerplate |
| WebUtils.RunBefore | chat_with_llm/web/utils.py:102-111 | the length of the empty-line run before a position is at most the position |
| WebUtils.CollapseUpTo | chat_with_llm/web/utils.py:116 | collapsing never adds lines |
| WebUtils.TrailingBlanks | chat_with_llm/web/utils.py:113-114 | the empty lines at the end, and the line before them is not empty |
| WebUtils.TrailingBlanksAppend | chat_with_llm/web/utils.py:103-111 | an empty line extends the trailing run, any other line resets it |
| WebUtils.NoThreeAppend | chat_with_llm/web/utils.py:100-116 | appending keeps "no three empty lines in a row" unless it makes a third |
| WebUtils.CollapseTail | chat_with_llm/web/utils.py:101-116 | the output ends in the input's trailing empty run capped at two, and has no three empty lines in a row |
| WebUtils.CollapseStepNoThree | chat_with_llm/web/utils.py:101-116 | one more line, kept or dropped, never makes three empty lines in a row when the trailing run is known |
| WebUtils.CollapseTrailing | chat_with_llm/web/utils.py:101-116 | after collapsing, the output ends in as many empty lines as the input's final run of empty lines, but at most two |
| WebUtils.CollapseNoThreeBlank | chat_with_llm/web/utils.py:100 | after collapsing no run of more than two empty lines remains |
| WebUtils.RunBeforeTwo | chat_with_llm/web/utils.py:105-106 | a run of two before a position means the two lines before it are empty |
| WebUtils.NoThreeNotDropped | chat_with_llm/web/utils.py:105-106 | with no three empty lines in a row no line is dropped |
| WebUtils.CollapseKeeps | chat_with_llm/web/utils.py:100-116 | lines with no three empty lines in a row are left exactly as they are |
| WebUtils.CollapseIdempotent | chat_with_llm/web/utils.py:100-116 | collapsing twice is collapsing once |
| WebUtils.CollapseKeepsNonBlank | chat_with_llm/web/utils.py:100-116 | collapsing removes only empty lines: the others all survive, in order |
| WebUtils.RemoveDuplicatedLinesSpec | chat_with_llm/web/utils.py:81 | a threshold of 1 or less raises AssertionError, any other succeeds |
| WebUtils.IndexAdd | chat_with_llm/web/utils.py:86-91 | recording one more line keeps the index of every line's positions exact |
| WebUtils.IndexAddLine | chat_with_llm/web/utils.py:87-89 | appending a non-empty line and its position keeps the index exact |
| WebUtils.IndexAddBlank | chat_with_llm/web/utils.py:90-91 | appending an empty line leaves the index exact without recording it |
| WebUtils.IndexLines | chat_with_llm/web/utils.py:84-91 | the first loop yields the normalised lines and, for each non-empty line, exactly its positions |
| WebUtils.IndexRaw | chat_with_llm/web/utils.py:86-91 | over the split lines, the loop yields the normalised lines and for each non-empty line exactly its positions |
| WebUtils.DropBoiler | chat_with_llm/web/utils.py:93-98 | the second loop and the filter drop every position of every boilerplate line, giving `Dedup` |
| WebUtils.MarkBoiler | chat_with_llm/web/utils.py:93-96 | a position is marked exactly when its line is non-empty, occurs at least `threshold` times and starts with no whitelisted prefix |
| WebUtils.KeepUnmarked | chat_with_llm/web/utils.py:98 | given exactly the boilerplate positions, the filter keeps the other lines in order, which is `Dedup` |
| WebUtils.Range | chat_with_llm/web/utils.py:106 | `set(range(a, b))` holds exactly the integers from `a` up to `b` |
| WebUtils.RunInside | chat_with_llm/web/utils.py:102-111 | inside an empty run that starts after a non-empty line, the run length is the distance from its start |
| WebUtils.CollapseBlankRuns | chat_with_llm/web/utils.py:101-116 | the third loop and its filter compute `Collapse` |
| WebUtils.CollapseFrom | chat_with_llm/web/utils.py:116 | every line after collapsing was in the input |
| WebUtils.DedupFrom | chat_with_llm/web/utils.py:98 | every line after deduplication was in the input |
| WebUtils.CollapseSub | chat_with_llm/web/utils.py:116 | every collapsed line was in the input |
| WebUtils.DedupSub | chat_with_llm/web/utils.py:98 | every deduplicated line was in the input |
| WebUtils.NormalizeSub | chat_with_llm/web/utils.py:86-91 | a normalised line is empty or an input line |
| WebUtils.SurvivorsSingleLine | chat_with_llm/web/utils.py:86-116 | no surviving line holds a line break |
| WebUtils.OutputNoThreeBlank | chat_with_llm/web/utils.py:80-120 | the result, split back into lines, never has three empty lines in a row |
| WebUtils.RemoveDuplicatedLines | chat_with_llm/web/utils.py:80-120 | `remove_duplicated_lines` computes `RemoveDuplicatedLinesSpec` |
| HtmlUtils.RemoveDuplicatedLines | scripts/html_utils.py:6-46 | the script's `remove_duplicated_lines` equals the crawler's on every input: AssertionError exactly for a threshold of 1 or less, and never three empty lines in a row |
| Crawl4AI.FlagMeaning | chat_with_llm/web/c4ai.py:65-67 | a flag given as a parameter is true exactly when its lower-cased text is `true`, `1` or `yes`; an absent flag is its default boolean |
| Crawl4AI.OptionsFromParams | chat_with_llm/web/c4ai.py:57-82 | the constructor raises ValueError exactly when `cache_expire` is given and not an integer or `mean_delay` is given and not a float; each option is the given value or its default (168 hours, a 1-second delay, the markdown parser, the link extractor only when given, no proxy, mobile mode, no debug, no boilerplate stripping) |
| Crawl4AI.DomainReverse | chat_with_llm/web/c4ai.py:113-120 | the reversed domain raises IndexError exactly when no label is left after dropping `www` |
| Crawl4AI.TruncDiv | chat_with_llm/web/c4ai.py:125 | `int()` of a float quotient truncates toward zero |
| Crawl4AI.PyFloorDiv | chat_with_llm/web/c4ai.py:125 | `//` rounds toward negative infinity |
| Crawl4AI.BucketHours | chat_with_llm/web/c4ai.py:124-125 | a zero `cache_expire` raises ZeroDivisionError |
| Crawl4AI.TimeTag | chat_with_llm/web/c4ai.py:126-127 | the time tag is ten digits, `YYYYMMDDHH` |
| Crawl4AI.BucketContainsNow | chat_with_llm/web/c4ai.py:124-126 | the window start is a multiple of the window length, at or before the current hour, less than one window before it |
| Crawl4AI.Url2Id | chat_with_llm/web/c4ai.py:110-129 | IndexError when the host has no label besides `www`, ZeroDivisionError for a zero window, OverflowError when the window start leaves years 1-9999, and no other error; an id starts with the reversed domain and `_` and ends with `_` and the ten-digit tag of the window start |
| Crawl4AI.SameWindowSameId | chat_with_llm/web/c4ai.py:110-129 | two calls whose clocks fall in the same window give the same id |
| Crawl4AI.OtherWindowOtherId | chat_with_llm/web/c4ai.py:110-129 | calls in different windows give different ids, so the cache expires |
| Crawl4AI.DomainRoundTrip | chat_with_llm/web/c4ai.py:113-120 | splitting the domain part on `_` and reversing gives the host labels back when no label holds `_` |
| Crawl4AI.StripHttps | chat_with_llm/web/c4ai.py:111 | a URL with only its leading `https://` loses that and nothing else |
| Crawl4AI.ItemOfFacts | chat_with_llm/web/c4ai.py:181-190 | an element yields a link exactly when its first text and first href exist and are not blank; the text is stripped |
| Crawl4AI.ItemsUpTo | chat_with_llm/web/c4ai.py:180-190 | no more links than selected elements |
| Crawl4AI.ItemsUpToStep | chat_with_llm/web/c4ai.py:180-190 | each element adds its link, if it has one, at the end |
| Crawl4AI.ItemsAllGood | chat_with_llm/web/c4ai.py:180-190 | when every element yields a link, the links are the elements', in document order |
| Crawl4AI.LinksIgnoreSubpaths | chat_with_llm/web/c4ai.py:159-173 | the text and href parts of the extractor are overwritten, so only the element xpath matters |
| Crawl4AI.ElemXpathFirst | chat_with_llm/web/c4ai.py:159-168 | the element xpath is the stripped first `|` part |
| Crawl4AI.ParseAsLinks | chat_with_llm/web/c4ai.py:157-192 | the loop of `parse_as_links` computes `ParseAsLinksSpec` |
| Crawl4AI.ParseAsMarkdown | chat_with_llm/web/c4ai.py:148-155 | the generated markdown, passed through `strip_boilerplate` exactly when that option is set |
| Crawl4AI.Parse | chat_with_llm/web/c4ai.py:137-146 | markdown for parser `markdown`; for `link_extractor`, RuntimeError without an extractor, else the dumped links or the lxml error; None for any other parser |
| Crawl4AI.OutcomeOf | chat_with_llm/web/c4ai.py:293-300 | a crawl gives an outcome exactly for status 200: the final URL, empty metadata and the page |
| Crawl4AI.MapResults | chat_with_llm/web/c4ai.py:292-302 | the result loop computes `MapResultsSpec` |
| Crawl4AI.MapResultsSpec | chat_with_llm/web/c4ai.py:292-302 | one outcome per crawl result, in order |
| Crawl4AI.CrawlSite | chat_with_llm/web/c4ai.py:110-146 | the retriever's `url2id`, `id2url` (always None) and `parse` as a site of the engine |
| Crawl4AI.List | chat_with_llm/web/c4ai.py:134-135 | `list` is always empty |
| Crawl4AI.BareIdNeedsCache | chat_with_llm/web/c4ai.py:131-132 | a bare id without a cached raw file raises RuntimeError in the engine |
| HNComments.Params | chat_with_llm/web/hn_comments.py:15-24 | the caller's parameters win; otherwise the markdown parser, no boilerplate stripping and the proxy |
| HNComments.DigitRun | chat_with_llm/web/hn_comments.py:29 | `(\d+)` takes the longest run of digits |
| HNComments.Url2Id | chat_with_llm/web/hn_comments.py:28-34 | `url2id` succeeds exactly when the URL starts with the item prefix followed by a digit; the id is the whole digit run after it; otherwise RuntimeError |
| HNComments.Id2Url | chat_with_llm/web/hn_comments.py:36-40 | `id2url` succeeds exactly for an all-digit id, giving the item prefix and the id; otherwise RuntimeError |
| HNComments.IdRoundTrip | chat_with_llm/web/hn_comments.py:28-40 | `url2id(id2url(d)) == d` for every all-digit id |
| HNComments.UrlRoundTrip | chat_with_llm/web/hn_comments.py:28-40 | a URL's id leads back to a prefix of the URL with the same id |
| HNComments.CommentCount | chat_with_llm/web/hn_comments.py:61-66 | 0 unless the text mentions `comment`, else `int()` of its first word |
| HNComments.RankLePreorder | chat_with_llm/web/hn_comments.py:68 | comparing `(comments, url)` tuples is a total preorder |
| HNComments.RankedUpTo | chat_with_llm/web/hn_comments.py:61-66 | each link keeps its URL and text and gets its count, or the first failing count is raised |
| HNComments.RankedErrorSticks | chat_with_llm/web/hn_comments.py:61-66 | the first failing count ends the loop |
| HNComments.Urls | chat_with_llm/web/hn_comments.py:70 | the URLs of the items, in order |
| HNComments.List | chat_with_llm/web/hn_comments.py:53-70 | the post-processing of `list` computes `ListSpec` |
| HNComments.ListRanking | chat_with_llm/web/hn_comments.py:61-70 | the URLs are those of the best-ranked links, most comments first, every link counted once; `n` of them, all when fewer, all but the last `-n` for negative `n` |
| HNComments.LinkMatches | chat_with_llm/web/hn_comments.py:113-114 | no link target found by the lazy pattern contains `)` |
| HNComments.Relative | chat_with_llm/web/hn_comments.py:115 | every target is made relative to the site, texts unchanged |
| HNComments.Part | chat_with_llm/web/hn_comments.py:122 | `s.split(c)[i]` or IndexError when it has too few parts |
| HNComments.LinkStep | chat_with_llm/web/hn_comments.py:119-134 | a vote link sets the comment id and marks the post when it is the page's own id; links other than vote, user and parent never raise; no link changes `seq`, level or text |
| HNComments.RecordErrorSticks | chat_with_llm/web/hn_comments.py:119-134 | the first raising link ends the record |
| HNComments.BuildRecord | chat_with_llm/web/hn_comments.py:118-134 | the link loop builds `RecordUpTo` of all links |
| HNComments.RecordUnleveled | chat_with_llm/web/hn_comments.py:118-134 | a record from a vote line has no level or text, and is the post only when the page id is known |
| HNComments.StoreOk | chat_with_llm/web/hn_comments.py:136-141 | storing a record keeps the ids in `order` once each and the current record stored |
| HNComments.LineStepOk | chat_with_llm/web/hn_comments.py:110-146 | every line keeps that bookkeeping |
| HNComments.ScanUpToOk | chat_with_llm/web/hn_comments.py:110-146 | after any number of lines the stored ids are those in `order`, each once |
| HNComments.VoteLineStores | chat_with_llm/web/hn_comments.py:136-141 | a vote line stores its record under its comment id with `seq` the number of records stored before, and makes it current; without an id nothing is stored |
| HNComments.ReplyLineSetsText | chat_with_llm/web/hn_comments.py:142-146 | a reply line gives the current record the text up to one character before the reply link, unless the link opens the line or the record is the post; other lines change nothing |
| HNComments.Shrinks | chat_with_llm/web/hn_comments.py:73-89 | each recursive call visits one more record, so the recursion is bounded by the page |
| HNComments.GetLevel | chat_with_llm/web/hn_comments.py:73-89 | `update_and_get_level` keeps the set of records |
| HNComments.GetLevelFrame | chat_with_llm/web/hn_comments.py:73-89 | the level returned is the one memoised for the id (0 when not on the page); only levels change and memoised ones stay |
| HNComments.FrameMemo | chat_with_llm/web/hn_comments.py:74-80 | an id not on the page gives 0 and a memoised level is returned as is, the table unchanged |
| HNComments.FrameRoot | chat_with_llm/web/hn_comments.py:82-84 | a record without a parent is memoised at level 0 and nothing else changes |
| HNComments.FrameStep | chat_with_llm/web/hn_comments.py:85-89 | memoising one more than the parent's level keeps every other record and every memoised level |
| HNComments.SetLevelFrame | chat_with_llm/web/hn_comments.py:88 | memoising one level changes only that record's level |
| HNComments.GetLevelConsistent | chat_with_llm/web/hn_comments.py:73-89 | every memoised level is 0 without a parent and one more than the parent's otherwise, before and after |
| HNComments.ConsistentAfterRoot | chat_with_llm/web/hn_comments.py:83-84 | a record without a parent gets level 0 consistently |
| HNComments.ConsistentAfterSet | chat_with_llm/web/hn_comments.py:85-86 | a reply gets its parent's level plus one consistently |
| HNComments.SelfParentIsCycle | chat_with_llm/web/hn_comments.py:86 | a record that is its own parent recurses forever: RecursionError |
| HNComments.LevelsUpTo | chat_with_llm/web/hn_comments.py:149-150 | the level pass keeps the set of records |
| HNComments.LevelsErrorSticks | chat_with_llm/web/hn_comments.py:149-150 | the first RecursionError ends the pass |
| HNComments.LevelsFacts | chat_with_llm/web/hn_comments.py:149-150 | after the pass every stored record has a consistent level and nothing else changed |
| HNComments.AssignLevels | chat_with_llm/web/hn_comments.py:149-150 | the loop computes `LevelsUpTo` |
| HNComments.Records | chat_with_llm/web/hn_comments.py:153 | the stored records in insertion order |
| HNComments.SeqLePreorder | chat_with_llm/web/hn_comments.py:153 | ordering records by `seq` is a total preorder |
| HNComments.RenderLine | chat_with_llm/web/hn_comments.py:155-164 | rendering raises exactly for a record without a level, or without a post title and also lacking a comment id or author |
| HNComments.RenderLineIndent | chat_with_llm/web/hn_comments.py:155-164 | each line is indented two spaces per level, starts with the post title or `id:`, and ends with a newline |
| HNComments.RenderErrorSticks | chat_with_llm/web/hn_comments.py:154-164 | the first failing record ends the output |
| HNComments.RenderLines | chat_with_llm/web/hn_comments.py:154-166 | the output is each record's line, the last one at the end |
| HNComments.Render | chat_with_llm/web/hn_comments.py:152-166 | the output loop computes `RenderUpTo` |
| HNComments.ArrangeOrder | chat_with_llm/web/hn_comments.py:149-153 | every stored record is listed once, in ascending `seq`, each with a level consistent with its parent's |
| HNComments.OutputOrder | chat_with_llm/web/hn_comments.py:106-153 | the records output are the levelled, ordered records of the scan of the page, which starts unlevelled |
| HNComments.LineStepUnleveled | chat_with_llm/web/hn_comments.py:110-146 | the scan never sets a level |
| HNComments.UnleveledConsistent | chat_with_llm/web/hn_comments.py:73-89 | a table without levels is trivially consistent |
| HNComments.ScanUnleveled | chat_with_llm/web/hn_comments.py:110-146 | before the level pass no record has a level |
| HNComments.ScanAdvance | chat_with_llm/web/hn_comments.py:110-146 | one more line gives its step's state, or its error, which ends the scan |
| HNComments.ScanLine | chat_with_llm/web/hn_comments.py:111-146 | the loop body computes `LineStep` |
| HNComments.ScanLines | chat_with_llm/web/hn_comments.py:110-146 | the loop over the lines computes `ScanUpTo` |
| HNComments.Parse | chat_with_llm/web/hn_comments.py:72-166 | `parse` computes `ParseSpec`: markdown, scan, levels, order, rendering |
| Llm.AddAliases | chat_with_llm/llm.py:32-33 | every alias of the list maps to the model id; every other entry is kept |
| Llm.StepRecords | chat_with_llm/llm.py:24-43 | a list alias makes the short name its first entry (the id when empty) and maps every entry back; a string alias maps both ways; no alias maps the id to itself; a delay entry, -1 when disabled, exists exactly when the delay is non-zero or the model is disabled |
| Llm.StepWf | chat_with_llm/llm.py:23-43 | one configuration keeps the three tables consistent |
| Llm.LoadWf | chat_with_llm/llm.py:16-45 | after the loop every alias names a known id, every delay belongs to a known id and is non-zero, ids are listed once |
| Llm.LoadNames | chat_with_llm/llm.py:23-30 | the known ids are exactly the configured names |
| Llm.LoadDelays | chat_with_llm/llm.py:41-43 | a delay entry exists only for a name configured with a delay or disabled |
| Llm.LoadModels | chat_with_llm/llm.py:16-45 | `_load_model_from_config` computes `LoadUpTo` over all configurations |
| Llm.AddModel | chat_with_llm/llm.py:24-43 | the loop body, with the alias loop, computes `Step` |
| Llm.FilterModels | chat_with_llm/llm.py:49-51 | `list_models` keeps exactly the ids whose delay is not -1; an id `random` or holding `*` makes the delay lookup call `list_models` again without end, so it raises RecursionError |
| Llm.Resolved | chat_with_llm/llm.py:67-70 | ValueError exactly when the name is unknown and `fail_on_unknown`; else the table value when non-empty, or the name |
| Llm.GetModel | chat_with_llm/llm.py:53-70 | a plain name is looked up only in the alias table; `random` and a name with `*` first list the models and raise RecursionError when that does; then `random` picks a listed model (IndexError when none is listed) and a name with `*` raises UnboundLocalError |
| Llm.GetModelKnown | chat_with_llm/llm.py:64-70 | a known alias resolves to a known id; an unknown one raises or comes back unchanged |
| Llm.ShortNameRoundTrip | chat_with_llm/llm.py:29-39 | the short name of a configured model resolves back to its id |
| Llm.EmptyAliasListUnknown | chat_with_llm/llm.py:29-33 | an empty alias list leaves the id unknown to `get_model` |
| Llm.ShortName | chat_with_llm/llm.py:72-73 | the recorded short name, or the id itself |
| Llm.SaveNameChars | chat_with_llm/llm.py:82-83 | every '/' and ':' becomes '_' and nothing else changes |
| Llm.SaveNameCollides | chat_with_llm/llm.py:82-83 | for all `a` and `b`, `a/b` and `a:b` share the save name, which is the save name of `a`, `_`, and the save name of `b` |
| Llm.FindSaveName | chat_with_llm/llm.py:75-80 | the first known id with that save name, or None exactly when there is none |
| Llm.GetModelFromSaveName | chat_with_llm/llm.py:75-80 | the loop computes `FindSaveName` over the ids in order |
| Llm.SaveNameRoundTrip | chat_with_llm/llm.py:75-83 | without collisions, the save name of a known id finds that id |
| Llm.QueryDelay | chat_with_llm/llm.py:92-95 | the name is resolved (and may raise) but the delay is looked up under the name as given, default 0 |
| Llm.AliasDelayIgnored | chat_with_llm/llm.py:92-95 | an alias without a delay entry of its own resolves to its model but gets delay 0, so it never gets the non-zero delay of that model |
| Llm.ChatAllowed | chat_with_llm/llm.py:112-114 | `chat_impl` goes on exactly when the delay lookup succeeds and is not -1; -1 raises ValueError |
| Llm.DisabledRefused | chat_with_llm/llm.py:41-51 | a disabled model is refused by its id and not listed |
| Llm.MessageSplits | chat_with_llm/llm.py:121 | with a one-character separator absent from both texts, the message splits back into prompt and contents in their order |
| Llm.RecordLines | chat_with_llm/llm.py:178-181 | a record of single-line fields has the header lines and the fields, the reasoning section only for a non-empty reasoning |
| Llm.RecordJoin | chat_with_llm/llm.py:178-181 | joining the record's lines with newlines gives the record |
| LegacyLlm.GetModel | llm.py:11-34 | the table's id when it is non-empty, else the name as given |
| LegacyLlm.GetModelNonEmpty | llm.py:29-34 | a non-empty name never resolves to "", and resolving twice changes nothing |
| LegacyLlm.MessageSplits | llm.py:52 | the message is prompt, separator, contents (or the reverse) and splits back into them |
| LegacyLlm.RecordFile | llm.py:71-76 | the record file is `chat_history/<use case>/<timestamp>_<model id>.txt` |
| LegacyLlm.Rename | llm.py:77-82 | a name ending in `<model id>.txt` gets `_1` inserted before `.txt` |
| LegacyLlm.FirstRename | llm.py:76-79 | the first collision inserts `_1` before `.txt` |
| LegacyLlm.FallbackFails | llm.py:80-82 | the numbered fallback raises ValueError on every `.txt` name, since its last part ends in `t` |
| LegacyLlm.RenamedEndsWith | llm.py:77-79 | the once-renamed name ends in `<model id>.txt` exactly when `<model id>_1` ends in the model id |
| LegacyLlm.SecondRenameFails | llm.py:77-82 | a second collision raises ValueError for every model id other than those, in particular `o1` or `gpt-4.1`: every non-empty id other than `1` that does not end in `_1` |
| LegacyLlm.SecondRenameRepeats | llm.py:77-79 | for those ids the second collision inserts `_1` once more |
| LegacyLlm.RenamedEndsWithIds | llm.py:77-79 | those ids are the empty id, `1` and ids ending in `_1` |
| GithubTrending.SitePathAt | scripts/sum_github_trending.py:43-44 | a match at `p` is the text of the line at `p` |
| GithubTrending.SitePathShape | scripts/sum_github_trending.py:43 | a match is the prefix, a non-empty owner without '/', '/', and a non-empty rest without ')' |
| GithubTrending.RepoUrlShape | scripts/sum_github_trending.py:43-46 | the repository URL matched anywhere has that shape after `https://github.com/` |
| GithubTrending.OwnerParts | scripts/sum_github_trending.py:49-53 | a URL of that shape has at least five '/'-parts with the owner at index 3 |
| GithubTrending.RepoUrlParts | scripts/sum_github_trending.py:45-72 | every URL the pattern finds has five or more parts and a non-empty owner, so the title fallbacks are never reached |
| GithubTrending.Description | scripts/sum_github_trending.py:80-91 | the next line stripped when it is over 10 characters and starts with none of the excluded prefixes, else "" |
| GithubTrending.StarsAtShape | scripts/sum_github_trending.py:110-111 | the star group is a non-empty run of digits and commas right after `[ ` |
| GithubTrending.GroupEndAccepts | scripts/sum_github_trending.py:120 | the `(?:,\d+)*` part consumes only digits and commas |
| GithubTrending.TodayAtShape | scripts/sum_github_trending.py:120-121 | the today group starts with a digit, holds only digits and commas and is followed by whitespace |
| GithubTrending.CommaFreeDigits | scripts/sum_github_trending.py:113 | removing the commas leaves digits only and keeps a leading digit |
| GithubTrending.CountOfDigits | scripts/sum_github_trending.py:112-117 | a group counts as the value of its digits; a group of commas only makes `int` raise |
| GithubTrending.CommaOnlyCount | scripts/sum_github_trending.py:114-117 | the `except` turns a comma-only group into 0 |
| GithubTrending.CountsAreDigits | scripts/sum_github_trending.py:109-127 | both counts are the matched digits' value, 0 without a match |
| GithubTrending.StarLine | scripts/sum_github_trending.py:99-103 | the line found lies in the window |
| GithubTrending.StarLineFirst | scripts/sum_github_trending.py:99-129 | it is the first line of the three-line window holding `stargazers`; none exactly when no line of the window does |
| GithubTrending.StatsDefaults | scripts/sum_github_trending.py:94-96 | without a star line the language is `Unknown` and both counts 0 |
| GithubTrending.ProjectsUpTo | scripts/sum_github_trending.py:34-133 | the first `k` lines give at most `k` projects |
| GithubTrending.ExtractProjects | scripts/sum_github_trending.py:9-135 | the line loop computes the projects of all lines of the page |
| GithubTrending.ScanLines | scripts/sum_github_trending.py:30-135 | the loop over the lines appends the project of each line that gives one, in line order |
| GithubTrending.ProjectsFromTitles | scripts/sum_github_trending.py:34-133 | a project is extracted exactly when some line gives it |
| GithubTrending.ProjectWhen | scripts/sum_github_trending.py:38-77 | a line gives a project exactly when it is a title line whose repository URL matches |
| GithubTrending.ProjectFields | scripts/sum_github_trending.py:45-131 | URL, owner, repository and full name come from the match; the description and statistics from the lines that follow, the window starting two lines on after a description |
| GithubTrending.ReadmeUrls | scripts/sum_github_trending.py:137-152 | three distinct URLs under the repository: main's README, master's README, then `#readme` |
| GithubTrending.ReadmeUrlsExact | scripts/sum_github_trending.py:137-152 | the candidates are exactly `url + "/blob/main/README.md"`, `url + "/blob/master/README.md"` and `url + "#readme"` |
| GithubTrending.SchemeAt | scripts/sum_github_trending.py:282 | `https?://` consumes 8, 7 or no characters |
| GithubTrending.LinkUrlShape | scripts/sum_github_trending.py:282-284 | a link URL starts with a scheme, has no ')' and is followed by ')' |
| GithubTrending.SchemeOf | scripts/sum_github_trending.py:282 | a link target placed in the line is read with its own scheme |
| GithubTrending.LinkUrlAtOf | scripts/sum_github_trending.py:282 | `](url)` closes a link with that URL |
| GithubTrending.LinkNotAt | scripts/sum_github_trending.py:282 | no link closes where there is no ']' |
| GithubTrending.LinkFromSkips | scripts/sum_github_trending.py:282 | the lazy `.*?` skips positions where no link closes |
| GithubTrending.LinkSearchAt | scripts/sum_github_trending.py:282 | a line opening a link at 0 and first closing it with `](url)` has `url` as its first link |
| GithubTrending.LinkLineSearch | scripts/sum_github_trending.py:282 | the first link of `[name](url)` is `url` |
| GithubTrending.LinkLineUrl | scripts/sum_github_trending.py:274-285 | the `[full_name](url)` line that the conversation input holds gives back its URL |
| GithubTrending.BareUrlLine | scripts/sum_github_trending.py:286-288 | a non-blank line without a link starting with `http` is taken whole |
| GithubTrending.LineStepAt | scripts/sum_github_trending.py:275-289 | what one line adds to the processed URLs |
| GithubTrending.FileUrls | scripts/sum_github_trending.py:275-289 | the line loop collects the URLs of all lines of a history file |
| GithubTrending.FileUrlsMembers | scripts/sum_github_trending.py:275-289 | a URL is collected from a file exactly when one of its lines gives it |
| GithubTrending.FileStepAt | scripts/sum_github_trending.py:272-275 | what one history file adds |
| GithubTrending.ProcessedUrls | scripts/sum_github_trending.py:270-289 | the file loop collects the URLs of all recent history files |
| GithubTrending.ProcessedUrlsMembers | scripts/sum_github_trending.py:270-289 | a URL is processed exactly when some line of some history file gives it |
| GithubTrending.InputFiles | scripts/sum_github_trending.py:266 | exactly the listed names ending `.input.txt` |
| GithubTrending.RecentInputs | scripts/sum_github_trending.py:264-268 | exactly `min(n, number of .input.txt names)` listed `.input.txt` names, with their multiplicity bounded by the listing, in descending order, each at least every input name left out |
| GithubTrending.Unseen | scripts/sum_github_trending.py:293 | exactly the projects whose URL was not processed, each as many times as in the input, no more of them than before |
| GithubTrending.UnseenConcat | scripts/sum_github_trending.py:293 | the filter keeps order: filtering a concatenation is the concatenation of the filtered parts |
| HackerNews.IdAt | scripts/sum_hackernews.py:18 | a match at `p` is `?id=` and a maximal run of ASCII digits |
| HackerNews.StoppedStays | scripts/sum_hackernews.py:65 | after the `break` the remaining parts change nothing |
| HackerNews.ScanAdvance | scripts/sum_hackernews.py:30-65 | one more part is one step of the loop, and a failing step fails the line |
| HackerNews.ScanParts | scripts/sum_hackernews.py:30-65 | the part loop computes the scan of all parts of the line |
| HackerNews.SeqNumberOf | scripts/sum_hackernews.py:16 | a part starting with digits and '.' is a rank whose value is the digits' value |
| HackerNews.SeqNumberShape | scripts/sum_hackernews.py:35-37 | a rank comes only from leading digits followed by '.' |
| HackerNews.HnIdInShape | scripts/sum_hackernews.py:41-43 | the id found is the digits of the leftmost `?id=<digits>` |
| HackerNews.HnIdInNone | scripts/sum_hackernews.py:41 | no id exactly when no position matches |
| HackerNews.LinkTextEnd | scripts/sum_hackernews.py:17 | the link text runs from after '[' to the first ']' |
| HackerNews.LinkSpacesEnd | scripts/sum_hackernews.py:17 | ` *` takes the spaces up to the first other character |
| HackerNews.LinkTargetEnd | scripts/sum_hackernews.py:17 | the target runs from after '(' to the first ')' |
| HackerNews.LinkIndices | scripts/sum_hackernews.py:17 | a match has '[' at 0, ']', spaces, `(http`, and ')', with the groups between them |
| HackerNews.LinkMatchShape | scripts/sum_hackernews.py:17 | a matched part is `[text]`, spaces, `(target)` and a rest; the text has no ']', the target starts `http` and has no ')' |
| HackerNews.LinkMatchOf | scripts/sum_hackernews.py:17 | every such part is matched with that text and target |
| HackerNews.LinkMatchOfSpaces | scripts/sum_hackernews.py:17 | the same for a run of spaces given as text |
| HackerNews.LinkMatchAt | scripts/sum_hackernews.py:17 | markers at those positions make a match |
| HackerNews.SeqPartStep | scripts/sum_hackernews.py:35-39 | a rank part records the rank and its index and nothing else |
| HackerNews.IdPartStep | scripts/sum_hackernews.py:41-43 | any other part with an id makes it the current id |
| HackerNews.TitleStep | scripts/sum_hackernews.py:46-52 | title and link change only at the part two after the rank, and only when it starts with a link |
| HackerNews.CommentsStep | scripts/sum_hackernews.py:54-65 | on a line with no rank, a link `<n> comment…` stops the scan with `int(n)`, failing exactly when `int` does; nothing else stops it |
| HackerNews.PartStepConsistent | scripts/sum_hackernews.py:30-65 | a step keeps the locals consistent |
| HackerNews.ScanConsistent | scripts/sum_hackernews.py:23-65 | a title comes with a rank and a link; a count only with a stop on a line without a rank; an id is digits |
| HackerNews.ScanIdIsLast | scripts/sum_hackernews.py:30-65 | the scan looks at every part unless it stops, and its id is the last one found |
| HackerNews.PartStepIndId | scripts/sum_hackernews.py:30-43 | until the scan stops, each part moves the index on by one and a non-empty, non-rank part with an id makes it the current id; a stopped scan is left as it is |
| HackerNews.UpdateComments | scripts/sum_hackernews.py:77-80 | the update keeps the number of articles |
| HackerNews.ApplyComments | scripts/sum_hackernews.py:76-80 | the in-place loop computes that update |
| HackerNews.ArticlesAdvance | scripts/sum_hackernews.py:20-80 | one more line is one step, and a failing line fails the parse |
| HackerNews.ExtractArticles | scripts/sum_hackernews.py:7-82 | the line loop computes the articles of the page, or the ValueError of a comment count |
| HackerNews.Heads | scripts/sum_hackernews.py:68-75 | one head per article, position by position |
| HackerNews.UpdateCommentsEffect | scripts/sum_hackernews.py:76-80 | a comments line changes only the counts and comment links of the articles with its id |
| HackerNews.RecordHeads | scripts/sum_hackernews.py:67-80 | a line adds the head of its article or keeps the heads |
| HackerNews.ArticlesFollowTitles | scripts/sum_hackernews.py:20-82 | the articles are those of the title lines, in line order |
| HackerNews.RecordWellFormed | scripts/sum_hackernews.py:67-80 | a line keeps every article with a digit id, a non-empty title, a rank and a link |
| HackerNews.ArticlesWellFormed | scripts/sum_hackernews.py:7-82 | so every article extracted has them |
| MarkdownResponse.StartedStep | scripts/extract_markdown_response.py:24-25 | the flag is set after a line exactly when it was set or the line opens the response |
| MarkdownResponse.ExtractResponse | scripts/extract_markdown_response.py:17-34 | the loop with its flag computes the kept lines joined with newlines |
| MarkdownResponse.NothingBeforeResponse | scripts/extract_markdown_response.py:23-32 | nothing before the first response line is kept |
| MarkdownResponse.NoResponseLine | scripts/extract_markdown_response.py:17-34 | without a response line the response is "" |
| MarkdownResponse.KeptAfterStart | scripts/extract_markdown_response.py:30-32 | once started, another line is kept verbatim exactly when it is not blank and starts with neither `model:` nor `prompt:` |
| MarkdownResponse.EnclosedShape | scripts/extract_markdown_response.py:55-57 | an enclosed match is the opening, a non-empty body without the stop character, and the closing |
| MarkdownResponse.EnclosedOf | scripts/extract_markdown_response.py:55-57 | every such opening, body and closing is matched |
| MarkdownResponse.LinkAtShape | scripts/extract_markdown_response.py:52 | a link match is `[text](target)`, both non-empty, without ']' and ')' respectively, replaced by the text |
| MarkdownResponse.MatchesAdvance | scripts/extract_markdown_response.py:52-63 | every match of the six patterns is non-empty and within the text |
| MarkdownResponse.HeaderAtShape | scripts/extract_markdown_response.py:60 | a header match is '#'s at a line start and a maximal non-empty whitespace run, removed |
| MarkdownResponse.SeparatorAtShape | scripts/extract_markdown_response.py:63 | a separator match is `---` at a line start and whitespace up to the end or a newline, replaced by two newlines |
| MarkdownResponse.SeparatorLine | scripts/extract_markdown_response.py:63 | a `---` line at the end or before a line of text is replaced at its end |
| MarkdownResponse.KindOf | scripts/extract_markdown_response.py:72-89 | a line's kind follows the tests on the stripped line in their order |
| MarkdownResponse.Kinds | scripts/extract_markdown_response.py:71-72 | one kind per line |
| MarkdownResponse.KindsAt | scripts/extract_markdown_response.py:71-72 | the kind at `i` is the kind of line `i` |
| MarkdownResponse.ListPassUpTo | scripts/extract_markdown_response.py:71-94 | the pass over `k` lines gives `k` lines |
| MarkdownResponse.ListPassSpec | scripts/extract_markdown_response.py:66-94 | the pass keeps the number of lines |
| MarkdownResponse.ListPassAt | scripts/extract_markdown_response.py:71-94 | line `i` is rendered with the counter one more than the list items since the last non-blank ordinary line |
| MarkdownResponse.RenderCases | scripts/extract_markdown_response.py:75-94 | a bullet becomes `<counter>. <rest>`, a numbered item its stripped text, any other line itself |
| MarkdownResponse.ListPass | scripts/extract_markdown_response.py:66-94 | the loop with `list_counter` and `in_list` computes the pass |
| MarkdownResponse.TransformMarkdown | scripts/extract_markdown_response.py:37-96 | the six substitutions then the list pass |
| MarkdownResponse.PlainTextEmpty | scripts/extract_markdown_response.py:48-49 | an empty text stays empty |
| MarkdownResponse.ListPassLines | scripts/extract_markdown_response.py:71-94 | the pass keeps the number of lines, leaves other lines as they are and strips numbered items |
| MarkdownResponse.ListNumbering | scripts/extract_markdown_response.py:75-94 | a bullet after an ordinary line is `1.`; after a list item it is numbered one more than that item |
| MarkdownResponse.BulletRendered | scripts/extract_markdown_response.py:75-94 | a `- ` line becomes its counter, `. ` and the text after `- `, the counter being one more than the run of list items before it |
| MarkdownResponse.SubBulletUnreachable | scripts/extract_markdown_response.py:87-88 | the sub-bullet branch is never taken, since a stripped line has no leading space |
| VideoSummary.VideoId | scripts/sum_youtube.py:135 | the text after the last '=' of the link, or the link itself when it has none |
| VideoSummary.IdDigest | scripts/sum_youtube.py:135-136 | the first eight characters of the digest of the video id, or all of a shorter digest |
| VideoSummary.CacheId | scripts/sum_youtube.py:120-136 | an eight-character hexadecimal argument is its own cache id; any other argument gives the digest of its video id |
| VideoSummary.CachedSubtitles | scripts/sum_youtube.py:146-160 | one subtitle per cache file present, at most one per candidate |
| VideoSummary.LanguageField | scripts/sum_youtube.py:160 | the second '.'-field of a cache file name is its language when the cache id has no '.' |
| VideoSummary.CachedLanguages | scripts/sum_youtube.py:157-160 | the subtitles read back from the cache carry the language looked for, in candidate order |
| VideoSummary.LastNonBlank | scripts/sum_youtube.py:213-215 | the last non-blank line, or none exactly when all lines are blank |
| VideoSummary.CleanLine | scripts/sum_youtube.py:216-229 | the heading cut, the mark removals and the space replacement compute the cleaned title |
| VideoSummary.PickTitle | scripts/sum_youtube.py:212-231 | the backward scan stops at the last non-blank line and gives its cleaned title |
| VideoSummary.PickTitleOf | scripts/sum_youtube.py:212-231 | over the lines, the backward scan returns the cleaned last non-blank line, or none when all are blank |
| VideoSummary.MarksRemoved | scripts/sum_youtube.py:223-226 | a one-character mark no longer occurs once the marks are removed |
| VideoSummary.CleanTitleClean | scripts/sum_youtube.py:223-229 | a cleaned title holds no one-character mark and no space |
| VideoSummary.TitleOfLastLine | scripts/sum_youtube.py:212-233 | no title exactly when every line of the summary is blank |
| VideoSummary.TitleClean | scripts/sum_youtube.py:223-229 | a found title holds no listed mark and no space |
| VideoSummary.HeadingCut | scripts/sum_youtube.py:217-221 | on a heading line the title is what follows the first full-width colon, or the first ASCII colon when there is no full-width one, stripped |
| VideoSummary.ModelSaveName | scripts/sum_youtube.py:234 | the save name of a model has no '/' |
| VideoSummary.SummaryNameFields | scripts/sum_youtube.py:236 | the summary file name starts with the cache id as its first '_'-field and ends with the model and `.txt` |
| SubtitleScripts.LastOf | scripts/summarize_subtitle.py:98-100 | the last subtitle in that language, or none exactly when there is none |
| SubtitleScripts.PickContents | scripts/summarize_subtitle.py:92-100 | the two loops compute the contents, or the NameError of an unbound `contents` |
| SubtitleScripts.PickLater | scripts/summarize_subtitle.py:97-100 | languages no subtitle has change nothing |
| SubtitleScripts.PickLastPriority | scripts/summarize_subtitle.py:97-100 | without a `break`, the contents are those of the last subtitle in the last listed language that any subtitle has |
| SubtitleScripts.PickNone | scripts/summarize_subtitle.py:97-100 | `contents` stays unbound exactly when no subtitle has a language looked at |
| SubtitleScripts.ContentsUnbound | scripts/summarize_subtitle.py:97-103 | the script fails with a NameError exactly when no subtitle has a listed language |
| SubtitleScripts.ScriptSaved | scripts/summarize_subtitle.py:108-132 | a summary is saved exactly when one of its lines is not blank, under the cache id and the model's save name |
| SubtitleScripts.RootSaved | summarize_subtitle.py:67-92 | the older script saves under the digest of the video id and the model name as given |
| Youtube.WeightedDigits | scripts/sum_youtube.py:25 | fields of digits are read at their decimal value, scaled and summed |
| Youtube.WeightedRefused | scripts/sum_youtube.py:25 | a field that `int` refuses makes the conversion fail |
| Youtube.PyIntReadsDigits | scripts/sum_youtube.py:25 | `int` reads every text of ASCII digits at its decimal value |
| Youtube.StampFields | scripts/sum_youtube.py:23-24 | a well-formed stamp unpacks into its four digit fields |
| Youtube.SrtTimeOfStamp | scripts/sum_youtube.py:19-25 | a stamp `HH:MM:SS,mmm` is HH hours, MM minutes, SS seconds and mmm milliseconds |
| Youtube.FieldsOfDigits | scripts/sum_youtube.py:25 | four digit fields are read at their values |
| Youtube.ClockSum | scripts/sum_youtube.py:25 | the weighted sum is hours, minutes, seconds and milliseconds in milliseconds |
| Youtube.TextStart | scripts/sum_youtube.py:44 | the caption text starts after the header, past `\s*\n` |
| Youtube.TextEnd | scripts/sum_youtube.py:43-44 | the intended end lies between the text start and the end |
| Youtube.AsWrittenOneLine | scripts/sum_youtube.py:44-46 | as written, no captured caption text holds a line break |
| Youtube.HeaderThenText | scripts/sum_youtube.py:44 | a header, a line break and a non-space character start the text right after the break |
| Youtube.AsWrittenDropsSecondLine | scripts/sum_youtube.py:44 | as written, a two-line caption is captured with its first line only |
| Youtube.TextEndNoIndex | scripts/sum_youtube.py:43 | without a following number line the intended text runs to the end |
| Youtube.IntendedKeepsSecondLine | scripts/sum_youtube.py:36-43 | as its comment describes, the caption keeps both lines |
| Youtube.NoIndexLine | scripts/sum_youtube.py:43 | a second line that does not start with a digit is no number line |
| Youtube.Clean | scripts/sum_youtube.py:61 | the cleaned text has no line break and no whitespace at either end |
| Youtube.JoinBlocks | scripts/sum_youtube.py:51-86 | the loop over the captures computes the joined state, or the first error |
| Youtube.JoinOne | scripts/sum_youtube.py:56-83 | one pass: the times read, the text cleaned, an empty text skipped, the first text bare, then a blank line after a longer pause or else a space |
| Youtube.JoinSticks | scripts/sum_youtube.py:55-58 | an error ends the loop for good |
| Youtube.SmartConvert | scripts/sum_youtube.py:28-86 | the conversion with the captions kept whole |
| Youtube.ConvertAsWritten | scripts/sum_youtube.py:44-86 | the conversion with the pattern as written never fails, and without a match anywhere gives the fixed message |
| Youtube.Convert | scripts/sum_youtube.py:36-86 | the conversion with captions running to the next number line never fails, and without a match anywhere gives the fixed message |
| Youtube.CapturedAsWritten | scripts/sum_youtube.py:44-46 | every capture of the pattern as written has well-formed stamps |
| Youtube.SrtTimeReadsStamps | scripts/sum_youtube.py:19-25 | `srt_time_to_seconds` reads every well-formed stamp at its value |
| Youtube.Kept | scripts/sum_youtube.py:61-65 | at most one kept caption per capture |
| Youtube.Pieces | scripts/sum_youtube.py:68-80 | one piece per kept caption |
| Youtube.JoinKept | scripts/sum_youtube.py:51-83 | the loop builds exactly the kept captions with their seams, a skipped caption not moving the end time, and never fails |
| Youtube.JoinStepKept | scripts/sum_youtube.py:56-83 | one pass keeps the state in step with the kept captions |
| Youtube.Captured | scripts/sum_youtube.py:44-46 | every capture has well-formed stamps |
| Youtube.ConvertText | scripts/sum_youtube.py:28-86 | the conversion never fails: the fixed message without captions, else the kept captions joined by their seams |
| Youtube.FirstOf | scripts/sum_youtube.py:187-191 | the first subtitle of that language, or none exactly when there is none |
| Youtube.ChooseSubtitle | scripts/sum_youtube.py:180-197 | the two loops with their `break`s compute the choice, or the AssertionError |
| Youtube.FirstOfFound | scripts/sum_youtube.py:188-191 | the first match is found |
| Youtube.ChooseDone | scripts/sum_youtube.py:194-195 | after the outer `break` nothing changes |
| Youtube.ChooseNone | scripts/sum_youtube.py:186-197 | nothing is picked exactly when no subtitle has a language looked at |
| Youtube.ChooseLanguage | scripts/sum_youtube.py:186-192 | a picked subtitle has a listed language |
| Youtube.ChooseFirst | scripts/sum_youtube.py:180-197 | the choice is the first subtitle of the first listed language that any subtitle has, when its contents are not empty |
| Youtube.FirstOfNone | scripts/sum_youtube.py:188-189 | no subtitle of that language, no match |
| Youtube.ChooseNotDone | scripts/sum_youtube.py:194-195 | the loop breaks off only once something is picked |
| GenerateSpeech.SortStampPrefix | scripts/generate_speech.py:84-91 | the sort stamp is the stem up to its second '_', or the whole stem when it has fewer '_'-fields |
| GenerateSpeech.Mp3OfPlain | scripts/generate_speech.py:114 | a key with `.plain.txt` only at its end has that ending turned into `.mp3` |
| GenerateSpeech.Plain | scripts/generate_speech.py:76 | no more keys than listed |
| GenerateSpeech.Entries | scripts/generate_speech.py:80-91 | one entry per plain key |
| GenerateSpeech.StampLePreorder | scripts/generate_speech.py:94 | the stamp order is total and transitive, as `sort` needs |
| GenerateSpeech.Keys | scripts/generate_speech.py:95 | one key per entry |
| GenerateSpeech.GetPlainTextFiles | scripts/generate_speech.py:71-95 | the filter, the stamping loop, the sort and the slice compute the latest keys |
| GenerateSpeech.PlainMembers | scripts/generate_speech.py:76 | the filter keeps exactly the listed keys ending `.plain.txt` |
| GenerateSpeech.LatestCount | scripts/generate_speech.py:95 | `[:n]` keeps `n` keys, fewer only when fewer are plain; a negative `n` drops that many from the end |
| GenerateSpeech.LatestSorted | scripts/generate_speech.py:94-95 | every key returned is a listed plain key, and they come newest stamp first |
| GenerateSpeech.EntryOfSorted | scripts/generate_speech.py:80-94 | each sorted entry is a plain key with its own stamp |
| GenerateSpeech.EntriesSorted | scripts/generate_speech.py:94 | the entries are in descending stamp order |
| GenerateSpeech.LatestNewest | scripts/generate_speech.py:94-95 | a plain key left out is no newer than any key returned |
| GenerateSpeech.LatestStable | scripts/generate_speech.py:94 | keys with equal stamps keep the listing order |
| GenerateSpeech.CountOf | scripts/generate_speech.py:112-160 | no more files of one outcome than files |
| GenerateSpeech.ProcessUseCase | scripts/generate_speech.py:108-164 | the loop's three counters are the numbers of files with each outcome |
| GenerateSpeech.CountsAddUp | scripts/generate_speech.py:112-160 | every file increments exactly one counter |
| GenerateSpeech.TallySum | scripts/generate_speech.py:108-164 | the three counts add up to the number of files |
| GenerateSpeech.OutcomeCases | scripts/generate_speech.py:117-156 | an existing mp3 is skipped; a dry run never fails a readable file; a processed file was readable and not blank and had no mp3 |
| GenSummary.Classify | scripts/gen_summary_for_chat.py:35-40 | a prompt key or a key not ending `.txt` is ignored; a summary key gives its stem before `.summary.txt`; any other `.txt` key gives its stem before `.txt` |
| GenSummary.ToBeSummarized | scripts/gen_summary_for_chat.py:31-42 | the key loop and the set difference compute the pending stems |
| GenSummary.ScanSets | scripts/gen_summary_for_chat.py:34-40 | the loop collects exactly the record stems and the summary stems |
| GenSummary.ConversationsStep | scripts/gen_summary_for_chat.py:39-40 | one more key adds its stem to the records when it is a record key |
| GenSummary.SummariesStep | scripts/gen_summary_for_chat.py:37-38 | one more key adds its stem to the summaries when it is a summary key |
| GenSummary.PendingExactly | scripts/gen_summary_for_chat.py:34-42 | a stem is pending exactly when `<stem>.txt` is listed as a record and `<stem>.summary.txt` is not listed |
| GenSummary.RecordListed | scripts/gen_summary_for_chat.py:39-40 | a stem is a record exactly when `<stem>.txt` is listed and is not a summary or a prompt key |
| GenSummary.SummaryListed | scripts/gen_summary_for_chat.py:37-38 | a stem is a summary exactly when `<stem>.summary.txt` is listed |
| GenSummary.PlainIsConversation | scripts/gen_summary_for_chat.py:39-40 | a `.plain.txt` key is taken for a record, its stem keeping `.plain` |
| XwlbStocks.HfCode | scripts/test_read_xwlb_stocks.py:11-15 | the code followed by `.SH` exactly when it starts with 6, else by `.SZ` |
| XwlbStocks.HfCodeInjective | scripts/test_read_xwlb_stocks.py:11-15 | two codes never share an exchange code |
| XwlbStocks.KindOf | scripts/test_read_xwlb_stocks.py:26-43 | a stripped line is a header exactly when it starts with `20` and is 8 long; otherwise it names a stock exactly when it holds a code, the stock being the exchange code of the leftmost code |
| XwlbStocks.FirstCodeLeftmost | scripts/test_read_xwlb_stocks.py:18-39 | the code found is the leftmost `[036]` followed by five digits, none only when the line holds none |
| XwlbStocks.Kinds | scripts/test_read_xwlb_stocks.py:25-43 | one kind per line, position by position |
| XwlbStocks.ReadXwlbStockFile | scripts/test_read_xwlb_stocks.py:17-45 | the loop computes the dictionary of dates |
| XwlbStocks.FirstLinesKeys | scripts/test_read_xwlb_stocks.py:41-43 | a stock is kept exactly when some line names it |
| XwlbStocks.FirstLineKept | scripts/test_read_xwlb_stocks.py:42-43 | the line kept for a stock is the first line naming it |
| XwlbStocks.LastHeader | scripts/test_read_xwlb_stocks.py:30-34 | the last header found is a header among the lines seen |
| XwlbStocks.LastHeaderOf | scripts/test_read_xwlb_stocks.py:30-34 | the last header of a date is a header with that date |
| XwlbStocks.SectionEnd | scripts/test_read_xwlb_stocks.py:30-34 | a section ends after its header and within the lines seen |
| XwlbStocks.SectionEndFirst | scripts/test_read_xwlb_stocks.py:30-34 | a section ends at the next header, or at the end |
| XwlbStocks.SectionsKept | scripts/test_read_xwlb_stocks.py:25-43 | each pass keeps the current date and dictionary those of the latest header, and every date its section of its last header |
| XwlbStocks.HeaderStep | scripts/test_read_xwlb_stocks.py:30-34 | a header opens an empty section for its date and leaves every other date as it was |
| XwlbStocks.HeaderClosesSection | scripts/test_read_xwlb_stocks.py:30-34 | a header ends every section opened before it |
| XwlbStocks.LineStep | scripts/test_read_xwlb_stocks.py:36-43 | another line extends the section of the current date only |
| XwlbStocks.LineStepDaily | scripts/test_read_xwlb_stocks.py:36-43 | the shared daily dictionary and its entry stay equal |
| XwlbStocks.LatestSectionAtK | scripts/test_read_xwlb_stocks.py:30-43 | the section of the latest header runs to the lines seen |
| XwlbStocks.LastHeaderIsLast | scripts/test_read_xwlb_stocks.py:30-34 | the latest header is the latest with its own date |
| XwlbStocks.LastHeaderOfBefore | scripts/test_read_xwlb_stocks.py:30-34 | another date was last opened before the latest header |
| XwlbStocks.LatestSectionOpen | scripts/test_read_xwlb_stocks.py:36-43 | a line after the latest header stays in its section |
| XwlbStocks.NoHeaderAfterLast | scripts/test_read_xwlb_stocks.py:30-34 | no header follows the latest one |
| XwlbStocks.SectionEndOpen | scripts/test_read_xwlb_stocks.py:30-34 | with no header after it, a section runs to the end |
| XwlbStocks.EarlierSectionClosed | scripts/test_read_xwlb_stocks.py:30-34 | a section with a header after it ends at or before that header |
| XwlbStocks.DatesOfHeaders | scripts/test_read_xwlb_stocks.py:30-34 | the dates of the result are exactly the headers of the file |
| XwlbStocks.HeadersFound | scripts/test_read_xwlb_stocks.py:30-34 | a date has a last header exactly when some header has it |
| XwlbStocks.SectionOfDate | scripts/test_read_xwlb_stocks.py:25-45 | a date holds the first lines of each stock after its last header up to the next header; a repeated date replaces the earlier section |
| XwlbStocks.LastOfDate | scripts/test_read_xwlb_stocks.py:30-34 | no header with that date follows its last one |
| XwlbStocks.StockOfDate | scripts/test_read_xwlb_stocks.py:36-45 | within a date, a stock is listed exactly when a line of its section names it, with the first such line |
| XwlbStocks.NoHeaderNoDates | scripts/test_read_xwlb_stocks.py:23-45 | lines before the first header are dropped: without a header the result is empty |
| XwlbStocks.NoHeaderFound | scripts/test_read_xwlb_stocks.py:30-34 | without a header there is no latest header |
| Downsub.Shorts | scripts/downsub.py:56 | the short languages of the entries, position by position |
| Downsub.RetriveSubtitles | scripts/downsub.py:49-68 | the two loops compute the entries of all subtitles under the supported-language table |
| Downsub.FetchFormats | scripts/downsub.py:59-66 | the format loop appends the fetched entries of the formats |
| Downsub.FetchedSound | scripts/downsub.py:59-64 | every entry comes from a `txt` or `srt` format of the list, with the text its fetch returned |
| Downsub.FetchedComplete | scripts/downsub.py:59-64 | every `txt` or `srt` format whose fetch succeeds gives an entry |
| Downsub.FetchedConcat | scripts/downsub.py:59-66 | the format loop over two lists appends what each appends, in order |
| Downsub.FailureSkipsFormat | scripts/downsub.py:62-66 | a failed fetch skips that format only |
| Downsub.ShortsHave | scripts/downsub.py:56 | a short language is listed exactly when some entry has it |
| Downsub.OfShortConcat | scripts/downsub.py:56 | the entries of a language in two runs are those of each, in order |
| Downsub.OfShortFetched | scripts/downsub.py:59-64 | the entries of one subtitle all carry its short language |
| Downsub.FirstYield | scripts/downsub.py:50-57 | the first subtitle of that short language that yields an entry |
| Downsub.EntriesOfShort | scripts/downsub.py:49-68 | a short language's entries are exactly those of its first subtitle that yields any; a subtitle whose fetches all fail leaves the language open |
| Downsub.RetrieveSound | scripts/downsub.py:28-64 | every entry has a short language of the table and a `txt` or `srt` format |
| Downsub.TwoFormats | scripts/downsub.py:59-64 | a subtitle with both formats fetched gives a `txt` and an `srt` entry in their order |
| LegacyDownsub.RetriveSubtitles | downsub.py:23-40 | the two loops compute the entries of all subtitles |
| LegacyDownsub.FetchTxt | downsub.py:31-38 | the format loop appends the fetched text of each `txt` format |
| LegacyDownsub.TxtFetchedSound | downsub.py:31-36 | every entry comes from a `txt` format of the list, under the language as given |
| LegacyDownsub.TxtFetchedComplete | downsub.py:31-36 | every `txt` format whose fetch succeeds gives an entry |
| LegacyDownsub.RetrieveSound | downsub.py:27-36 | every entry's language, lower-cased, is `english` or `chinese`, from a kept subtitle |
| LegacyDownsub.RetrieveConcat | downsub.py:26-40 | without deduplication the result for two runs of subtitles is the result for each, in order |
| LegacyDownsub.UpToConcat | downsub.py:26-40 | after a run `a` and the first k subtitles of `b`, the result is the result for `a` followed by the result for those k |
| LegacyDownsub.PrefixUpTo | downsub.py:27-38 | the result after `k` subtitles is the result for those alone |

## Left out

- Network, browser, threads and `asyncio` are not modelled. Left out: the crawl4ai crawler, its dispatcher, login and debug hooks (chat_with_llm/web/c4ai.py:57-108, 198-290); the thread pool of `fetch_many`; the `asyncio` gather (chat_with_llm/web/online_content.py:160-177). A batch fetch is a function from the URLs to one optional result per URL.
- `CustomRateLimiter` (chat_with_llm/web/c4ai.py:20-50) is not modelled. It only paces requests with sleeps, the clock and random floats.
- The crawler options that `CrawlSite` passes to crawl4ai are not modelled. They only configure the foreign library.
- Foreign libraries are parameters, not definitions:
  - crawl4ai markdown generation;
  - lxml xpath evaluation and BeautifulSoup;
  - `hashlib.md5`;
  - `json.dumps`/`loads`;
  - `urljoin`.
  Their results are inputs, and the model states only what the code does around them.
- The clock is a parameter: `datetime.now()` and `time.time()` are inputs.
- Floating point is not modelled:
  - SRT times and the pause threshold are integer milliseconds;
  - the boilerplate ratio `> 0.9 * len` is `10 * links > 9 * len`;
  - the hour bucket of `Crawl4AI.url2id` is whole elapsed hours.
  - `Crawl4AI.OptionsFromParams` keeps `mean_delay` as the real number `float()` denotes, without binary rounding.
- Python's `\d`, `str.isdigit`, `int()` and `str.lower()` are modelled on ASCII only. Python also accepts or folds other Unicode digits and letters. `str.isspace` is modelled with its full set of whitespace characters.
- Dictionary iteration order, `os.listdir` order and `set` iteration order are not modelled. Listings are taken as given sequences, and sets are Dafny sets.
- The file system is a map from names to contents taken at one moment. File or directory creation failures and concurrent writers are not modelled.
- `print`, logging and the command-line parsing of every script are not modelled.
- The OpenAI client call and its retry and sleep loop (chat_with_llm/llm.py:116-151, llm.py:47-61) are not modelled. Neither is the answer they return.
- `random` model selection (chat_with_llm/llm.py:54-56) is not modelled: `random.choice` is a parameter (`pick`). The wildcard branch is modelled up to its first two lines: line 58 calls `list_models()`, whose error it passes on, and line 60 then raises UnboundLocalError; `fnmatch.filter` is never reached.
- The numbered-filename loop of the current client (chat_with_llm/llm.py:171-176) is not modelled: it depends on the clock and on which files exist. The legacy loop (llm.py:77-82) is modelled up to its second collision, where `int()` raises for every model id except the few for which `_1` is inserted again.
- The construction of `MRXWLB` (chat_with_llm/web/mrxwlb.py:15-16) is not modelled, because it does not match `OnlineContent.__init__`. `date_end` is a parameter of `list`.
- `MRXWLB.fetch` and the legacy page download (chat_with_llm/web/mrxwlb.py:51-62, web/mrxwlb.py:64-70) are not modelled: they are HTTP and BeautifulSoup. The legacy `fetch` is modelled only for the shape of what it returns.
- `downsub.retrive_metadata`, `generate_speech.generate_speech` and chat_with_llm/web/linkseek.py are not modelled: they are HTTP clients. The speech call is a parameter of the bookkeeping loop.
- A missing key in DownSub metadata (`KeyError`) is not modelled: subtitles and formats are records with the fields the code reads.
- The download-and-cache path of the video scripts (scripts/sum_youtube.py:163-177) is not modelled: it is network and file I/O. Neither is reading the link back from `<id>.url` (139-144).
- The `__main__` glue of the scripts is not modelled: argument parsing, star and comment thresholds, language filters, `top_n` cuts, README fetching and prompt assembly. The dedup steps that the model covers are the exceptions.
- `process_file`/`main` of scripts/extract_markdown_response.py and the file reading of scripts/test_read_xwlb_stocks.py are not modelled. The model starts from the text and from its lines.
- chat_with_llm/config.py, chat_with_llm/logutils.py, chat_with_llm/__init__.py, scripts/sum_reuters.py, scripts/sum_yahoo_finance.py, scripts/sum_hn_comments.py, scripts/sum_xwlb.py, both `run_web_retriever.py`, test/*.py, test_logging.py and scripts/test_openai_api.py are not part of this model. They are configuration, logging and glue around network calls.
- HNComments.GetLevel: Python's recursion depth limit is not modelled. A parent chain of any length gets its level; only a cycle raises RecursionError.
- XwlbStocks.Step: the aliasing of `daily_recommendations` with `recommendations[date]` is written out as a store into the outer map after each update.
- Sorting.SortDesc and GenerateSpeech.Sorted: the in-place `list.sort` is modelled as a pure stable sort on sequences.
- Llm.StepRecords: a configured `delay` is an integer. A fractional YAML delay such as 0.5, and the truthiness of a delay or `disabled` of another YAML type (a string, a list), are not modelled.
- Calendar.ParseYmd: `\d` in the `strptime` pattern is an ASCII digit. Python also accepts other Unicode decimal digits there: in the year, and as the second digit of a day from 10 to 29.
- Youtube.SmartConvert: it is proved about the caption pattern as its comment describes it. The pattern as written is `Youtube.ConvertAsWritten` (see Findings).

## Findings

| source | as written | input that shows it | evidently intended | confidence | as-written member | corrected member |
|---|---|---|---|---|---|---|
| chat_with_llm/web/online_content.py:86 | the thread pool maps `self.fetch_safe`, which no class defines, so the base `fetch_many` always raises AttributeError | any non-empty list of URLs | map `self.safe_fetch` (line 90), giving one optional result per URL | not executed | OnlineContent.ThreadPoolFetchMany, OnlineContent.ThreadPoolRetrieveFails | OnlineContent.SafeFetchMany, OnlineContent.SafeRetrieveSucceeds |
| chat_with_llm/web/mrxwlb.py:29 | the guard `len(site_id) != 8 and site_id.isdigit()` raises only for all-digit ids of the wrong length | `latest`, which gives `.../latest/` instead of an error | reject every id that is not eight digits | not executed | Mrxwlb.Id2Url, Mrxwlb.Id2UrlAcceptsNonDate | Mrxwlb.Id2UrlChecked, Mrxwlb.Id2UrlCheckedDates |
| scripts/sum_youtube.py:44 | under `re.MULTILINE`, `$` in the look-ahead holds before every newline, so the lazy caption text stops at its first line break | `00:00:01,000 --> 00:00:02,000\nhello\nworld`, whose caption is captured as `hello` | the caption runs to the next number line or the end, as the comment on line 43 says | not executed | Youtube.ConvertAsWritten, Youtube.AsWrittenDropsSecondLine | Youtube.Convert, Youtube.IntendedKeepsSecondLine |
