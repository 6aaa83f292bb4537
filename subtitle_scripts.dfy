/**
 * The two summarize-subtitle scripts: `scripts/summarize_subtitle.py`, whose language loop never
 * breaks, and the older `summarize_subtitle.py`; both name the saved summary after the cache id and
 * the title of the summary.
 */
module SubtitleScripts {
  import opened Wrappers
  import opened PyStr
  import opened VideoSummary

  // ---------------------------------------------------------------------------------------------
  // the priority loop of `scripts/summarize_subtitle.py`

  /** The last of the first `n` subtitles in language `p`. */
  function LastOf(subs: seq<Subtitle>, p: string, n: nat): (r: Option<nat>)
    requires n <= |subs|
    ensures r.Some? ==> r.value < n && subs[r.value].lang == p && forall j :: r.value < j < n ==> subs[j].lang != p
    ensures r.None? ==> forall j :: 0 <= j < n ==> subs[j].lang != p
  {
    if n == 0 then None
    else if subs[n - 1].lang == p then Some(n - 1)
    else LastOf(subs, p, n - 1)
  }

  /** `contents` after the inner loop has looked at the first `n` subtitles for language `p`. */
  function Overwrite(subs: seq<Subtitle>, p: string, n: nat, prev: Option<string>): Option<string>
    requires n <= |subs|
  {
    match LastOf(subs, p, n)
    case None => prev
    case Some(j) => Some(subs[j].contents)
  }

  /** `contents` after the outer loop has gone through the first `k` languages; `None` while unbound. */
  function PickUpTo(subs: seq<Subtitle>, k: nat): Option<string>
    requires k <= |Priority|
  {
    if k == 0 then None else Overwrite(subs, Priority[k - 1], |subs|, PickUpTo(subs, k - 1))
  }

  /** The contents handed to the model; when no subtitle has a listed language, `contents` is unbound. */
  function Contents(subs: seq<Subtitle>): Result<string> {
    match PickUpTo(subs, |Priority|)
    case None => Err(NameError)
    case Some(c) => Ok(c)
  }

  /** `for p in priority: for sub in subs: if sub[0] == p: contents = sub[2]`. */
  method PickContents(subs: seq<Subtitle>) returns (r: Result<string>)
    ensures r == Contents(subs)
  {
    var contents: Option<string> := None;
    var k := 0;
    while k < |Priority|
      invariant k <= |Priority| && contents == PickUpTo(subs, k)
    {
      var p := Priority[k];
      ghost var before := contents;
      var j := 0;
      while j < |subs|
        invariant j <= |subs| && contents == Overwrite(subs, p, j, before)
      {
        if subs[j].lang == p {
          contents := Some(subs[j].contents);
        }
        j := j + 1;
      }
      k := k + 1;
    }
    r := if contents.None? then Err(NameError) else Ok(contents.value);
  }

  /** The languages after the first `k` are absent: the value is the one after `k`. */
  lemma {:induction false} PickLater(subs: seq<Subtitle>, k: nat, m: nat)
    requires k <= m <= |Priority|
    requires forall i, j :: k <= i < m && 0 <= j < |subs| ==> subs[j].lang != Priority[i]
    ensures PickUpTo(subs, m) == PickUpTo(subs, k)
    decreases m - k
  {
    if k < m {
      PickLater(subs, k, m - 1);
      var r := LastOf(subs, Priority[m - 1], |subs|);
      assert r.None?;
    }
  }

  /**
   * The loop never breaks: the contents are those of the last subtitle in the last priority
   * language that any subtitle has.
   */
  lemma PickLastPriority(subs: seq<Subtitle>, i: nat, j: nat)
    requires i < |Priority| && j < |subs| && subs[j].lang == Priority[i]
    requires forall j' :: j < j' < |subs| ==> subs[j'].lang != Priority[i]
    requires forall i', j' :: i < i' < |Priority| && 0 <= j' < |subs| ==> subs[j'].lang != Priority[i']
    ensures Contents(subs) == Ok(subs[j].contents)
  {
    PickLater(subs, i + 1, |Priority|);
    var r := LastOf(subs, Priority[i], |subs|);
    assert r == Some(j);
  }

  /** With none of the first `k` languages present, `contents` is still unbound. */
  lemma {:induction false} PickNone(subs: seq<Subtitle>, k: nat)
    requires k <= |Priority|
    ensures PickUpTo(subs, k).None? <==> forall i, j :: 0 <= i < k && 0 <= j < |subs| ==> subs[j].lang != Priority[i]
  {
    if k > 0 {
      PickNone(subs, k - 1);
      var r := LastOf(subs, Priority[k - 1], |subs|);
      if r.Some? {
        assert subs[r.value].lang == Priority[k - 1];
      }
    }
  }

  /** The script fails with a NameError exactly when no subtitle has a listed language. */
  lemma ContentsUnbound(subs: seq<Subtitle>)
    ensures Contents(subs).Err? <==> forall i, j :: 0 <= i < |Priority| && 0 <= j < |subs| ==> subs[j].lang != Priority[i]
    ensures Contents(subs).Err? ==> Contents(subs).error == NameError
  {
    PickNone(subs, |Priority|);
  }

  // ---------------------------------------------------------------------------------------------
  // the saved summary

  /** `scripts/summarize_subtitle.py`: `<youtube_id_md5>_<video_title>_<model_save_name>.txt`, when a title is found. */
  function ScriptSummaryName(arg: string, md5: string -> string, summary: string, model: string): Option<string> {
    match Title(summary)
    case None => None
    case Some(t) => Some(SummaryName(CacheId(arg, md5), t, ModelSaveName(model)))
  }

  /** `summarize_subtitle.py`: `<youtube_id_md5>_<video_title>_<model>.txt`, with the model as given. */
  function RootSummaryName(link: string, md5: string -> string, summary: string, model: string): Option<string> {
    match Title(summary)
    case None => None
    case Some(t) => Some(SummaryName(IdDigest(link, md5), t, model))
  }

  /**
   * A summary is saved exactly when one of its lines is not blank; the name starts with the cache id
   * and ends with the model with its '/' turned into '_'.
   */
  lemma ScriptSaved(arg: string, md5: string -> string, summary: string, model: string)
    requires '_' !in CacheId(arg, md5)
    ensures ScriptSummaryName(arg, md5, summary, model).Some? <==> exists i :: 0 <= i < |Split(summary, '\n')| && Strip(Split(summary, '\n')[i]) != ""
    ensures ScriptSummaryName(arg, md5, summary, model).Some? ==>
      var name := ScriptSummaryName(arg, md5, summary, model).value;
      Split(name, '_')[0] == CacheId(arg, md5) && EndsWith(name, "_" + ModelSaveName(model) + ".txt")
  {
    TitleOfLastLine(summary);
    if Title(summary).Some? {
      SummaryNameFields(CacheId(arg, md5), Title(summary).value, ModelSaveName(model));
    }
  }

  /** The older script saves under the digest of the video id and the model name unchanged. */
  lemma RootSaved(link: string, md5: string -> string, summary: string, model: string)
    requires '_' !in IdDigest(link, md5)
    ensures RootSummaryName(link, md5, summary, model).Some? <==> exists i :: 0 <= i < |Split(summary, '\n')| && Strip(Split(summary, '\n')[i]) != ""
    ensures RootSummaryName(link, md5, summary, model).Some? ==>
      var name := RootSummaryName(link, md5, summary, model).value;
      Split(name, '_')[0] == IdDigest(link, md5) && EndsWith(name, "_" + model + ".txt")
  {
    TitleOfLastLine(summary);
    if Title(summary).Some? {
      SummaryNameFields(IdDigest(link, md5), Title(summary).value, model);
    }
  }
}
