/**
 * What the three video-summary scripts (`scripts/sum_youtube.py`, `scripts/summarize_subtitle.py`
 * and `summarize_subtitle.py`) share: the cache id of a video, the title taken from the last line
 * of a summary, and the name of the file the summary is saved under.
 */
module VideoSummary {
  import opened Wrappers
  import opened PyStr

  // ---------------------------------------------------------------------------------------------
  // cache ids

  /** An argument taken for a cache id: eight characters that `int(s, 16)` accepts. */
  predicate IsCacheId(arg: string) {
    |arg| == 8 && IsHexInt(arg)
  }

  /** `link.split('=')[-1]`: the text after the last '=', or the whole link when it has none. */
  function VideoId(link: string): (r: string)
    ensures '=' !in r && EndsWith(link, r)
    ensures '=' !in link ==> r == link
    ensures '=' in link ==> EndsWith(link, "=" + r)
  {
    var parts := Split(link, '=');
    SplitLast(link, '=');
    SplitMany(link, '=');
    parts[|parts| - 1]
  }

  /**
   * `hashlib.md5(youtube_id.encode()).hexdigest()[:8]` for the video id of a link, with `md5`
   * standing for the hex digest: its first eight characters, or all of it when it is shorter.
   */
  function IdDigest(link: string, md5: string -> string): (r: string)
    ensures StartsWith(md5(VideoId(link)), r)
    ensures |r| == if |md5(VideoId(link))| >= 8 then 8 else |md5(VideoId(link))|
  {
    PyPrefix(md5(VideoId(link)), 8)
  }

  /** The cache id the scripts use: the argument itself when it looks like one, else the digest of its video id. */
  function CacheId(arg: string, md5: string -> string): (r: string)
    ensures IsCacheId(arg) ==> r == arg
    ensures !IsCacheId(arg) ==> r == IdDigest(arg, md5)
    ensures |r| == 8 || (!IsCacheId(arg) && |md5(VideoId(arg))| < 8)
  {
    if IsCacheId(arg) then arg else IdDigest(arg, md5)
  }

  // ---------------------------------------------------------------------------------------------
  // cached subtitles

  /** A subtitle as the scripts hold it: `(language, format, contents)`. */
  datatype Subtitle = Subtitle(lang: string, format: string, contents: string)

  /** The languages of the cache files the scripts look for, in the order they look. */
  const CacheLanguages: seq<string> :=
    ["chinese", "english", "japanese", "korean", "french",
     "chinese_auto", "english_auto", "japanese_auto", "korean_auto", "french_auto"]

  /** The order in which the scripts prefer subtitle languages. */
  const Priority: seq<string> :=
    ["chinese", "english", "chinese_auto", "english_auto", "japanese", "japanese_auto",
     "korean", "korean_auto", "french", "french_auto"]

  /** `f'{youtube_id_md5}.{lang}.txt'`. */
  function CacheFile(cacheId: string, lang: string): string {
    cacheId + "." + lang + ".txt"
  }

  /**
   * The loop over the candidate cache files: each one present becomes a `txt` subtitle whose
   * language is the second '.'-field of its name.
   */
  function CachedSubtitles(cacheId: string, store: map<string, string>, k: nat): (r: seq<Subtitle>)
    requires k <= |CacheLanguages|
    ensures |r| <= k
  {
    if k == 0 then []
    else
      var name := CacheFile(cacheId, CacheLanguages[k - 1]);
      var head := CachedSubtitles(cacheId, store, k - 1);
      assert name[|cacheId|] == '.';
      SplitMany(name, '.');
      if name in store then head + [Subtitle(Split(name, '.')[1], "txt", store[name])] else head
  }

  /** The cached subtitles named by their language directly. */
  function CachedByLanguage(cacheId: string, store: map<string, string>, k: nat): seq<Subtitle>
    requires k <= |CacheLanguages|
  {
    if k == 0 then []
    else
      var lang := CacheLanguages[k - 1];
      var head := CachedByLanguage(cacheId, store, k - 1);
      if CacheFile(cacheId, lang) in store then head + [Subtitle(lang, "txt", store[CacheFile(cacheId, lang)])] else head
  }

  /** The second '.'-field of a cache file name is its language, when the cache id has no '.'. */
  lemma LanguageField(cacheId: string, lang: string)
    requires '.' !in cacheId && '.' !in lang
    ensures |Split(CacheFile(cacheId, lang), '.')| > 1 && Split(CacheFile(cacheId, lang), '.')[1] == lang
  {
    assert CacheFile(cacheId, lang) == cacheId + ['.'] + (lang + ['.'] + "txt");
    SplitAround(cacheId, '.', lang + ['.'] + "txt");
    SplitAround(lang, '.', "txt");
    SplitNoSep(cacheId, '.');
    SplitNoSep(lang, '.');
  }

  /** Reading the language back from the file name gives the language looked for. */
  lemma {:induction false} CachedLanguages(cacheId: string, store: map<string, string>, k: nat)
    requires k <= |CacheLanguages| && '.' !in cacheId
    ensures CachedSubtitles(cacheId, store, k) == CachedByLanguage(cacheId, store, k)
  {
    if k > 0 {
      CachedLanguages(cacheId, store, k - 1);
      var lang := CacheLanguages[k - 1];
      assert '.' !in lang;
      LanguageField(cacheId, lang);
    }
  }

  // ---------------------------------------------------------------------------------------------
  // the title

  /**
   * A title line that names itself ("标题: …" or "标题：…") is cut after its first full-width colon,
   * or after its first ASCII colon when it has no full-width one, and stripped.
   */
  function Heading(line: string): string {
    if (Contains(line, "：") || Contains(line, ":")) && Contains(line, "标题") then
      if Contains(line, "：") then Strip(line[Find(line, "：") + 1..])
      else Strip(line[Find(line, ":") + 1..])
    else line
  }

  /** The marks removed from a title, in the order the scripts remove them. */
  const Boilerplate: seq<string> :=
    ["【", "】", "（", "）", "(", ")", "《", "》", "「", "」", "“", "”", "【", "】", "‘", "’", "『", "』", "**", "*"]

  /** `t` after removing every occurrence of the first `k` marks, one mark after the other. */
  function RemoveMarks(t: string, marks: seq<string>, k: nat): string
    requires k <= |marks| && forall i :: 0 <= i < |marks| ==> |marks[i]| > 0
  {
    if k == 0 then t else ReplaceAll(RemoveMarks(t, marks, k - 1), marks[k - 1], "")
  }

  /** The title made of a summary line: the heading cut out, the marks removed, spaces turned into '_'. */
  function CleanTitle(line: string): string {
    ReplaceAll(RemoveMarks(Heading(line), Boilerplate, |Boilerplate|), " ", "_")
  }

  /** The last of the first `k` lines that is not blank. */
  function LastNonBlank(lines: seq<string>, k: nat): (r: Option<nat>)
    requires k <= |lines|
    ensures r.Some? ==> r.value < k && Strip(lines[r.value]) != "" && forall j :: r.value < j < k ==> Strip(lines[j]) == ""
    ensures r.None? ==> forall j :: 0 <= j < k ==> Strip(lines[j]) == ""
  {
    if k == 0 then None else if Strip(lines[k - 1]) != "" then Some(k - 1) else LastNonBlank(lines, k - 1)
  }

  /** The title of a summary: its last non-blank line, cleaned; none when every line is blank. */
  function Title(summary: string): Option<string> {
    TitleOf(Split(summary, '\n'))
  }

  /** The title of the lines of a summary. */
  function TitleOf(lines: seq<string>): Option<string> {
    match LastNonBlank(lines, |lines|)
    case None => None
    case Some(i) => Some(CleanTitle(lines[i]))
  }

  /** The clean-up of a title line, with the mark and space replacements as loops. */
  method CleanLine(l: string) returns (t: string)
    ensures t == CleanTitle(l)
  {
    t := Heading(l);
    ghost var h := t;
    for j := 0 to |Boilerplate|
      invariant t == RemoveMarks(h, Boilerplate, j)
    {
      if Contains(t, Boilerplate[j]) {
        t := ReplaceAll(t, Boilerplate[j], "");
      } else {
        ReplaceAbsent(t, Boilerplate[j], "");
      }
    }
    if Contains(t, " ") {
      t := ReplaceAll(t, " ", "_");
    } else {
      ReplaceAbsent(t, " ", "_");
    }
  }

  /** The scan over the summary lines from the last one, stopping at the first non-blank one. */
  method PickTitle(summary: string) returns (title: Option<string>)
    ensures title == Title(summary)
  {
    var lines := Split(summary, '\n');
    title := PickTitleOf(lines);
  }

  /** The scan over the lines, from the last one. */
  method PickTitleOf(lines: seq<string>) returns (title: Option<string>)
    ensures title == TitleOf(lines)
  {
    var i: nat := |lines|;
    while i > 0
      invariant i <= |lines|
      invariant LastNonBlank(lines, |lines|) == LastNonBlank(lines, i)
    {
      i := i - 1;
      var l := lines[i];
      var stripped := Strip(l);
      if |stripped| > 0 {
        assert LastNonBlank(lines, i + 1) == Some(i);
        var t := CleanLine(l);
        return Some(t);
      }
      assert LastNonBlank(lines, i + 1) == LastNonBlank(lines, i);
    }
    return None;
  }

  /** A one-character mark among the first `k` does not occur once they are removed. */
  lemma {:induction false} MarksRemoved(t: string, marks: seq<string>, k: nat, c: char)
    requires k <= |marks| && forall i :: 0 <= i < |marks| ==> |marks[i]| > 0
    requires exists i :: 0 <= i < k && marks[i] == [c]
    ensures c !in RemoveMarks(t, marks, k)
  {
    var prev := RemoveMarks(t, marks, k - 1);
    if marks[k - 1] == [c] {
      ReplaceCharRemoves(prev, c, "");
    } else {
      MarksRemoved(t, marks, k - 1, c);
      ReplaceKeepsAbsent(prev, marks[k - 1], "", c);
    }
  }

  /** A cleaned title holds none of the one-character marks, no '*' and no space. */
  lemma CleanTitleClean(line: string, c: char)
    requires [c] in Boilerplate || c == ' '
    ensures c !in CleanTitle(line)
  {
    var r := RemoveMarks(Heading(line), Boilerplate, |Boilerplate|);
    if c == ' ' {
      ReplaceCharRemoves(r, ' ', "_");
    } else {
      var i :| 0 <= i < |Boilerplate| && Boilerplate[i] == [c];
      MarksRemoved(Heading(line), Boilerplate, |Boilerplate|, c);
      assert c != '_';
      ReplaceKeepsAbsent(r, " ", "_", c);
    }
  }

  /** The title is absent exactly when every line is blank, and is otherwise the last non-blank line, cleaned. */
  lemma TitleOfLastLine(summary: string)
    ensures Title(summary).None? ==> forall j :: 0 <= j < |Split(summary, '\n')| ==> Strip(Split(summary, '\n')[j]) == ""
    ensures Title(summary).Some? ==> exists j :: 0 <= j < |Split(summary, '\n')| && Strip(Split(summary, '\n')[j]) != ""
  {
    var lines := Split(summary, '\n');
    var r := LastNonBlank(lines, |lines|);
    assert Title(summary).None? <==> r.None?;
    if r.Some? {
      var j := r.value;
      assert 0 <= j < |lines| && Strip(lines[j]) != "";
      assert !(forall j :: 0 <= j < |lines| ==> Strip(lines[j]) == "");
    }
  }

  /** A found title holds no listed mark and no space. */
  lemma TitleClean(summary: string, c: char)
    requires Title(summary).Some? && ([c] in Boilerplate || c == ' ')
    ensures c !in Title(summary).value
  {
    var lines := Split(summary, '\n');
    CleanTitleClean(lines[LastNonBlank(lines, |lines|).value], c);
  }

  /**
   * On a heading line, the title is what follows the first full-width colon, stripped; on one with
   * only ASCII colons, what follows the first of them.
   */
  lemma HeadingCut(line: string) returns (before: string, after: string)
    requires Contains(line, "标题") && (Contains(line, "：") || Contains(line, ":"))
    ensures var mark := if Contains(line, "：") then '：' else ':';
      line == before + [mark] + after && mark !in before && Heading(line) == Strip(after)
  {
    var mark := if Contains(line, "：") then '：' else ':';
    var at := Find(line, [mark]);
    before, after := line[..at], line[at + 1..];
    assert line == before + [mark] + after;
    forall j | 0 <= j < |before|
      ensures before[j] != mark
    {
      assert !StartsWith(line[j..], [mark]);
    }
  }

  // ---------------------------------------------------------------------------------------------
  // the saved summary

  /** `model_id.replace('/', '_')`. */
  function ModelSaveName(model: string): (r: string)
    ensures '/' !in r
  {
    ReplaceCharRemoves(model, '/', "_");
    ReplaceAll(model, "/", "_")
  }

  /** `f'{youtube_id_md5}_{video_title}_{model}.txt'`. */
  function SummaryName(cacheId: string, title: string, model: string): string {
    cacheId + "_" + title + "_" + model + ".txt"
  }

  /** The name is a `.txt` file whose first '_' field is the cache id, when the cache id has no '_'. */
  lemma SummaryNameFields(cacheId: string, title: string, model: string)
    requires '_' !in cacheId
    ensures Split(SummaryName(cacheId, title, model), '_')[0] == cacheId
    ensures EndsWith(SummaryName(cacheId, title, model), "_" + model + ".txt")
  {
    var name := SummaryName(cacheId, title, model);
    var rest := title + "_" + model + ".txt";
    var tail := "_" + model + ".txt";
    assert name == cacheId + ['_'] + rest;
    assert name == (cacheId + "_" + title) + tail;
    SplitAround(cacheId, '_', rest);
    SplitNoSep(cacheId, '_');
  }
}
