/**
 * `scripts/downsub.py`: picking the subtitles to download from the metadata the DownSub service
 * returns for a video. Subtitles whose language is supported are kept, one per short language,
 * and each of their `txt` and `srt` formats is fetched. The HTTP get is a parameter; an error
 * result stands for the exception it raises.
 */
module Downsub {
  import opened Wrappers
  import opened PyStr

  /** One entry of a subtitle's `formats`: its `format` and its `url`. */
  datatype Format = Format(format: string, url: string)

  /** One entry of `metadata['data']['subtitles']`: its `language` and its `formats`. */
  datatype Subtitle = Subtitle(language: string, formats: seq<Format>)

  /** A tuple of the result: the short language, the format and the text fetched. */
  datatype Entry = Entry(short: string, format: string, contents: string)

  type Get = string -> Result<string>

  /** `support_langs`: lower-cased language names and the short language each is filed under. */
  const SupportLangs: map<string, string> := map[
    "chinese" := "chinese",
    "chinese (simplified)" := "chinese",
    "chinese (traditional)" := "chinese",
    "english" := "english",
    "japanese" := "japanese",
    "korean" := "korean",
    "french" := "french",
    "english (united states)" := "english",
    "english (united kingdom)" := "english",
    "english (australian)" := "english",
    "english (canadian)" := "english",
    "english (great britain)" := "english",
    "chinese (auto-generated)" := "chinese_auto",
    "english (auto-generated)" := "english_auto",
    "japanese (auto-generated)" := "japanese_auto",
    "korean (auto-generated)" := "korean_auto",
    "french (auto-generated)" := "french_auto"
  ]

  /** The short language of a subtitle under `table`, if its lower-cased language is in it. */
  function ShortOf(table: map<string, string>, sub: Subtitle): Option<string> {
    var lang := Lower(sub.language);
    if lang in table then Some(table[lang]) else None
  }

  /** The format test of the inner loop. */
  predicate Wanted(f: Format) {
    f.format == "txt" || f.format == "srt"
  }

  /** What the format loop appends for `fmts`: one entry per wanted format whose fetch succeeds. */
  function Fetched(short: string, fmts: seq<Format>, get: Get): seq<Entry>
    decreases |fmts|
  {
    if |fmts| == 0 then []
    else
      var f := fmts[|fmts| - 1];
      Fetched(short, fmts[..|fmts| - 1], get)
      + (if Wanted(f) && get(f.url).Ok? then [Entry(short, f.format, get(f.url).value)] else [])
  }

  /** `[s[0] for s in subs]`. */
  function Shorts(entries: seq<Entry>): (r: seq<string>)
    ensures |r| == |entries| && forall i :: 0 <= i < |entries| ==> r[i] == entries[i].short
  {
    seq(|entries|, i requires 0 <= i < |entries| => entries[i].short)
  }

  /** The result after the first `k` subtitles, with short languages from `table`. */
  function RetrieveUpTo(table: map<string, string>, subs: seq<Subtitle>, k: nat, get: Get): seq<Entry>
    requires k <= |subs|
  {
    if k == 0 then []
    else
      var prev := RetrieveUpTo(table, subs, k - 1, get);
      match ShortOf(table, subs[k - 1])
      case None => prev
      case Some(short) => if short in Shorts(prev) then prev else prev + Fetched(short, subs[k - 1].formats, get)
  }

  /** `retrive_subtitles(metadata)` for the subtitles of the metadata. */
  function Retrieve(table: map<string, string>, subs: seq<Subtitle>, get: Get): seq<Entry> {
    RetrieveUpTo(table, subs, |subs|, get)
  }

  /** The loops of `retrive_subtitles`. */
  method RetriveSubtitles(subtitles: seq<Subtitle>, get: Get) returns (subs: seq<Entry>)
    ensures subs == Retrieve(SupportLangs, subtitles, get)
  {
    subs := [];
    var i := 0;
    while i < |subtitles|
      invariant i <= |subtitles| && subs == RetrieveUpTo(SupportLangs, subtitles, i, get)
    {
      var sub := subtitles[i];
      var lang := Lower(sub.language);
      i := i + 1;
      if lang !in SupportLangs {
        continue;
      }
      var langShort := SupportLangs[lang];
      if langShort in Shorts(subs) {
        continue;
      }
      subs := FetchFormats(langShort, sub.formats, get, subs);
    }
  }

  /** The format loop: append the fetched text of each `txt` or `srt` format, skipping failed fetches. */
  method FetchFormats(langShort: string, formats: seq<Format>, get: Get, before: seq<Entry>) returns (subs: seq<Entry>)
    ensures subs == before + Fetched(langShort, formats, get)
  {
    subs := before;
    var j := 0;
    while j < |formats|
      invariant j <= |formats| && subs == before + Fetched(langShort, formats[..j], get)
    {
      var fmt := formats[j];
      if fmt.format == "txt" || fmt.format == "srt" {
        var contents := get(fmt.url);
        if contents.Ok? {
          subs := subs + [Entry(langShort, fmt.format, contents.value)];
        }
      }
      assert formats[..j + 1][..j] == formats[..j];
      j := j + 1;
    }
    assert formats[..j] == formats;
  }

  // ---------------------------------------------------------------------------------------
  // the formats of one subtitle

  /** Every entry comes from a wanted format of the list, with the text its fetch returned. */
  lemma {:induction false} FetchedSound(short: string, fmts: seq<Format>, get: Get, e: Entry)
    requires e in Fetched(short, fmts, get)
    ensures e.short == short && (e.format == "txt" || e.format == "srt")
    ensures exists j :: 0 <= j < |fmts| && fmts[j].format == e.format && get(fmts[j].url) == Ok(e.contents)
    decreases |fmts|
  {
    var n := |fmts|;
    var f := fmts[n - 1];
    if e in Fetched(short, fmts[..n - 1], get) {
      FetchedSound(short, fmts[..n - 1], get, e);
      var j :| 0 <= j < n - 1 && fmts[..n - 1][j].format == e.format && get(fmts[..n - 1][j].url) == Ok(e.contents);
      assert fmts[j] == fmts[..n - 1][j];
    } else {
      assert e == Entry(short, f.format, get(f.url).value);
    }
  }

  /** Every wanted format whose fetch succeeds gives an entry. */
  lemma {:induction false} FetchedComplete(short: string, fmts: seq<Format>, get: Get, j: nat)
    requires j < |fmts| && Wanted(fmts[j]) && get(fmts[j].url).Ok?
    ensures Entry(short, fmts[j].format, get(fmts[j].url).value) in Fetched(short, fmts, get)
    decreases |fmts|
  {
    if j < |fmts| - 1 {
      FetchedComplete(short, fmts[..|fmts| - 1], get, j);
      assert fmts[..|fmts| - 1][j] == fmts[j];
    }
  }

  /** The format loop over two lists in a row appends what each appends, in order. */
  lemma {:induction false} FetchedConcat(short: string, a: seq<Format>, b: seq<Format>, get: Get)
    ensures Fetched(short, a + b, get) == Fetched(short, a, get) + Fetched(short, b, get)
    decreases |b|
  {
    if |b| == 0 {
      assert a + b == a;
    } else {
      assert (a + b)[..|a + b| - 1] == a + b[..|b| - 1];
      FetchedConcat(short, a, b[..|b| - 1], get);
    }
  }

  /** A failed fetch skips that format only: the result is that of the list without it. */
  lemma FailureSkipsFormat(short: string, fmts: seq<Format>, get: Get, j: nat)
    requires j < |fmts| && get(fmts[j].url).Err?
    ensures Fetched(short, fmts, get) == Fetched(short, fmts[..j] + fmts[j + 1..], get)
  {
    var a, f, b := fmts[..j], [fmts[j]], fmts[j + 1..];
    assert fmts == a + f + b;
    assert f[..0] == [];
    assert Fetched(short, f, get) == [];
    FetchedConcat(short, a + f, b, get);
    FetchedConcat(short, a, f, get);
    FetchedConcat(short, a, b, get);
  }

  // ---------------------------------------------------------------------------------------
  // one subtitle per short language

  /** The entries of one short language, in order. */
  function OfShort(entries: seq<Entry>, s: string): seq<Entry>
    decreases |entries|
  {
    if |entries| == 0 then []
    else OfShort(entries[..|entries| - 1], s) + (if entries[|entries| - 1].short == s then [entries[|entries| - 1]] else [])
  }

  /** A short language is among the entries exactly when some entries have it. */
  lemma {:induction false} ShortsHave(entries: seq<Entry>, s: string)
    ensures s in Shorts(entries) <==> OfShort(entries, s) != []
    decreases |entries|
  {
    if |entries| > 0 {
      var init := entries[..|entries| - 1];
      ShortsHave(init, s);
      assert Shorts(entries) == Shorts(init) + [entries[|entries| - 1].short];
    }
  }

  lemma {:induction false} OfShortConcat(a: seq<Entry>, b: seq<Entry>, s: string)
    ensures OfShort(a + b, s) == OfShort(a, s) + OfShort(b, s)
    decreases |b|
  {
    if |b| == 0 {
      assert a + b == a;
    } else {
      assert (a + b)[..|a + b| - 1] == a + b[..|b| - 1];
      OfShortConcat(a, b[..|b| - 1], s);
    }
  }

  /** The entries a subtitle's formats give all carry its short language. */
  lemma {:induction false} OfShortFetched(short: string, fmts: seq<Format>, get: Get, s: string)
    ensures OfShort(Fetched(short, fmts, get), s) == if short == s then Fetched(short, fmts, get) else []
    decreases |fmts|
  {
    if |fmts| > 0 {
      var f := fmts[|fmts| - 1];
      var extra := if Wanted(f) && get(f.url).Ok? then [Entry(short, f.format, get(f.url).value)] else [];
      OfShortFetched(short, fmts[..|fmts| - 1], get, s);
      OfShortConcat(Fetched(short, fmts[..|fmts| - 1], get), extra, s);
      assert OfShort(extra, s) == if short == s then extra else [] by {
        if |extra| > 0 {
          assert extra[..0] == [];
        }
      }
    }
  }

  /** What a subtitle would add when accepted. */
  function Yield(table: map<string, string>, sub: Subtitle, get: Get): seq<Entry> {
    match ShortOf(table, sub)
    case None => []
    case Some(short) => Fetched(short, sub.formats, get)
  }

  /** The first of the first `k` subtitles with short language `s` that yields any entry. */
  function FirstYield(table: map<string, string>, subs: seq<Subtitle>, s: string, get: Get, k: nat): (r: Option<nat>)
    requires k <= |subs|
    ensures r.Some? ==> r.value < k && ShortOf(table, subs[r.value]) == Some(s) && Yield(table, subs[r.value], get) != []
  {
    if k == 0 then None
    else
      var p := FirstYield(table, subs, s, get, k - 1);
      if p.Some? then p
      else if ShortOf(table, subs[k - 1]) == Some(s) && Yield(table, subs[k - 1], get) != [] then Some(k - 1)
      else None
  }

  /**
   * The entries of a short language are exactly those of the first subtitle with that language
   * that yields any: later subtitles with the same short language are skipped, but one whose
   * formats all fail or are neither `txt` nor `srt` leaves the language open.
   */
  lemma {:induction false} EntriesOfShort(table: map<string, string>, subs: seq<Subtitle>, s: string, get: Get, k: nat)
    requires k <= |subs|
    ensures OfShort(RetrieveUpTo(table, subs, k, get), s) ==
      match FirstYield(table, subs, s, get, k)
      case None => []
      case Some(i) => Yield(table, subs[i], get)
    decreases k
  {
    if k > 0 {
      var prev := RetrieveUpTo(table, subs, k - 1, get);
      var fy := FirstYield(table, subs, s, get, k - 1);
      EntriesOfShort(table, subs, s, get, k - 1);
      assert OfShort(prev, s) == if fy.None? then [] else Yield(table, subs[fy.value], get);
      match ShortOf(table, subs[k - 1])
      case None =>
        assert RetrieveUpTo(table, subs, k, get) == prev;
        assert FirstYield(table, subs, s, get, k) == fy;
      case Some(short) =>
        var f := Fetched(short, subs[k - 1].formats, get);
        assert Yield(table, subs[k - 1], get) == f;
        ShortsHave(prev, short);
        if short in Shorts(prev) {
          assert RetrieveUpTo(table, subs, k, get) == prev;
          assert short == s ==> fy.Some?;
          assert FirstYield(table, subs, s, get, k) == fy;
        } else {
          assert RetrieveUpTo(table, subs, k, get) == prev + f;
          OfShortConcat(prev, f, s);
          OfShortFetched(short, subs[k - 1].formats, get, s);
          if short == s {
            assert fy.None?;
            assert FirstYield(table, subs, s, get, k) == if f != [] then Some(k - 1) else None;
          } else {
            assert FirstYield(table, subs, s, get, k) == fy;
          }
        }
    }
  }

  /** Each entry's short language is a value of the table and each format is `txt` or `srt`. */
  lemma {:induction false} RetrieveSound(table: map<string, string>, subs: seq<Subtitle>, get: Get, k: nat, e: Entry)
    requires k <= |subs| && e in RetrieveUpTo(table, subs, k, get)
    ensures e.short in table.Values && (e.format == "txt" || e.format == "srt")
    decreases k
  {
    var prev := RetrieveUpTo(table, subs, k - 1, get);
    if e in prev {
      RetrieveSound(table, subs, get, k - 1, e);
    } else {
      var short := ShortOf(table, subs[k - 1]).value;
      FetchedSound(short, subs[k - 1].formats, get, e);
      assert table[Lower(subs[k - 1].language)] == short;
    }
  }

  /** A subtitle with both formats fetched gives two entries, `txt` first when it comes first. */
  lemma TwoFormats(table: map<string, string>, sub: Subtitle, get: Get, short: string)
    requires ShortOf(table, sub) == Some(short)
    requires |sub.formats| == 2 && sub.formats[0].format == "txt" && sub.formats[1].format == "srt"
    requires get(sub.formats[0].url).Ok? && get(sub.formats[1].url).Ok?
    ensures Retrieve(table, [sub], get) ==
      [Entry(short, "txt", get(sub.formats[0].url).value), Entry(short, "srt", get(sub.formats[1].url).value)]
  {
    var fmts := sub.formats;
    var e0 := Entry(short, "txt", get(fmts[0].url).value);
    var e1 := Entry(short, "srt", get(fmts[1].url).value);
    assert fmts[..1][..0] == [];
    assert Fetched(short, fmts[..1], get) == [e0];
    assert Fetched(short, fmts, get) == [e0, e1];
    assert RetrieveUpTo(table, [sub], 0, get) == [];
    assert Shorts([]) == [];
  }
}
