/**
 * `downsub.py`: the earlier subtitle picker. It keeps the subtitles whose language, lower-cased,
 * is `english` or `chinese`, fetches each of their `txt` formats, and files each text under the
 * subtitle's language as given. There is no deduplication. The HTTP get is a parameter.
 */
module LegacyDownsub {
  import opened Wrappers
  import opened PyStr
  import Downsub

  /** A tuple of the result: the subtitle's language as given and the text fetched. */
  datatype Found = Found(language: string, contents: string)

  /** The language test of the subtitle loop. */
  predicate Kept(sub: Downsub.Subtitle) {
    Lower(sub.language) == "english" || Lower(sub.language) == "chinese"
  }

  /** What the format loop appends: one entry per `txt` format whose fetch succeeds. */
  function TxtFetched(language: string, fmts: seq<Downsub.Format>, get: Downsub.Get): seq<Found>
    decreases |fmts|
  {
    if |fmts| == 0 then []
    else
      var f := fmts[|fmts| - 1];
      TxtFetched(language, fmts[..|fmts| - 1], get)
      + (if f.format == "txt" && get(f.url).Ok? then [Found(language, get(f.url).value)] else [])
  }

  /** What one subtitle adds to the result. */
  function Contribution(sub: Downsub.Subtitle, get: Downsub.Get): seq<Found> {
    if Kept(sub) then TxtFetched(sub.language, sub.formats, get) else []
  }

  /** The result after the first `k` subtitles. */
  function RetrieveUpTo(subs: seq<Downsub.Subtitle>, k: nat, get: Downsub.Get): seq<Found>
    requires k <= |subs|
  {
    if k == 0 then [] else RetrieveUpTo(subs, k - 1, get) + Contribution(subs[k - 1], get)
  }

  /** `retrive_subtitles(metadata)` for the subtitles of the metadata. */
  function Retrieve(subs: seq<Downsub.Subtitle>, get: Downsub.Get): seq<Found> {
    RetrieveUpTo(subs, |subs|, get)
  }

  /** The loops of the legacy `retrive_subtitles`. */
  method RetriveSubtitles(subtitles: seq<Downsub.Subtitle>, get: Downsub.Get) returns (subs: seq<Found>)
    ensures subs == Retrieve(subtitles, get)
  {
    subs := [];
    var i := 0;
    while i < |subtitles|
      invariant i <= |subtitles| && subs == RetrieveUpTo(subtitles, i, get)
    {
      var sub := subtitles[i];
      i := i + 1;
      if Lower(sub.language) != "english" && Lower(sub.language) != "chinese" {
        continue;
      }
      subs := FetchTxt(sub.language, sub.formats, get, subs);
    }
  }

  /** The format loop: append the fetched text of each `txt` format, skipping failed fetches. */
  method FetchTxt(language: string, formats: seq<Downsub.Format>, get: Downsub.Get, before: seq<Found>) returns (subs: seq<Found>)
    ensures subs == before + TxtFetched(language, formats, get)
  {
    subs := before;
    var j := 0;
    while j < |formats|
      invariant j <= |formats| && subs == before + TxtFetched(language, formats[..j], get)
    {
      var fmt := formats[j];
      if fmt.format == "txt" {
        var contents := get(fmt.url);
        if contents.Ok? {
          subs := subs + [Found(language, contents.value)];
        }
      }
      assert formats[..j + 1][..j] == formats[..j];
      j := j + 1;
    }
    assert formats[..j] == formats;
  }

  /** Every text comes from a `txt` format of the list, filed under the given language. */
  lemma {:induction false} TxtFetchedSound(language: string, fmts: seq<Downsub.Format>, get: Downsub.Get, e: Found)
    requires e in TxtFetched(language, fmts, get)
    ensures e.language == language
    ensures exists j :: 0 <= j < |fmts| && fmts[j].format == "txt" && get(fmts[j].url) == Ok(e.contents)
    decreases |fmts|
  {
    var n := |fmts|;
    if e in TxtFetched(language, fmts[..n - 1], get) {
      TxtFetchedSound(language, fmts[..n - 1], get, e);
      var j :| 0 <= j < n - 1 && fmts[..n - 1][j].format == "txt" && get(fmts[..n - 1][j].url) == Ok(e.contents);
      assert fmts[j] == fmts[..n - 1][j];
    }
  }

  /** Every `txt` format whose fetch succeeds gives an entry. */
  lemma {:induction false} TxtFetchedComplete(language: string, fmts: seq<Downsub.Format>, get: Downsub.Get, j: nat)
    requires j < |fmts| && fmts[j].format == "txt" && get(fmts[j].url).Ok?
    ensures Found(language, get(fmts[j].url).value) in TxtFetched(language, fmts, get)
    decreases |fmts|
  {
    if j < |fmts| - 1 {
      TxtFetchedComplete(language, fmts[..|fmts| - 1], get, j);
      assert fmts[..|fmts| - 1][j] == fmts[j];
    }
  }

  /**
   * Every entry comes from a kept subtitle with its language as given: lower-cased it is
   * `english` or `chinese`.
   */
  lemma {:induction false} RetrieveSound(subs: seq<Downsub.Subtitle>, get: Downsub.Get, k: nat, e: Found)
    requires k <= |subs| && e in RetrieveUpTo(subs, k, get)
    ensures exists i :: 0 <= i < k && Kept(subs[i]) && subs[i].language == e.language
    ensures Lower(e.language) == "english" || Lower(e.language) == "chinese"
    decreases k
  {
    if e in RetrieveUpTo(subs, k - 1, get) {
      RetrieveSound(subs, get, k - 1, e);
    } else {
      var sub := subs[k - 1];
      assert e in Contribution(sub, get);
      assert Kept(sub);
      TxtFetchedSound(sub.language, sub.formats, get, e);
      assert 0 <= k - 1 < k && Kept(subs[k - 1]) && subs[k - 1].language == e.language;
    }
  }

  /**
   * Without deduplication, the picker works subtitle by subtitle: the result for two runs of
   * subtitles is the result for each, one after the other.
   */
  lemma {:induction false} RetrieveConcat(a: seq<Downsub.Subtitle>, b: seq<Downsub.Subtitle>, get: Downsub.Get)
    ensures Retrieve(a + b, get) == Retrieve(a, get) + Retrieve(b, get)
  {
    UpToConcat(a, b, get, |b|);
    assert |a + b| == |a| + |b|;
  }

  /** The result after `a` and the first `k` subtitles of `b` is the result for `a`, then for those. */
  lemma {:induction false} UpToConcat(a: seq<Downsub.Subtitle>, b: seq<Downsub.Subtitle>, get: Downsub.Get, k: nat)
    requires k <= |b|
    ensures RetrieveUpTo(a + b, |a| + k, get) == Retrieve(a, get) + RetrieveUpTo(b, k, get)
    decreases k
  {
    if k == 0 {
      PrefixUpTo(a + b, |a|, get);
      assert (a + b)[..|a|] == a;
    } else {
      UpToConcat(a, b, get, k - 1);
      assert (a + b)[|a| + k - 1] == b[k - 1];
      var x, y, z := Retrieve(a, get), RetrieveUpTo(b, k - 1, get), Contribution(b[k - 1], get);
      assert RetrieveUpTo(a + b, |a| + k, get) == RetrieveUpTo(a + b, |a| + k - 1, get) + z;
      assert RetrieveUpTo(b, k, get) == y + z;
      assert (x + y) + z == x + (y + z);
    }
  }

  /** The result after the first `k` subtitles is the result for those subtitles alone. */
  lemma {:induction false} PrefixUpTo(subs: seq<Downsub.Subtitle>, k: nat, get: Downsub.Get)
    requires k <= |subs|
    ensures RetrieveUpTo(subs, k, get) == Retrieve(subs[..k], get)
    decreases k
  {
    if k > 0 {
      PrefixUpTo(subs, k - 1, get);
      PrefixUpTo(subs[..k], k - 1, get);
      assert subs[..k][..k - 1] == subs[..k - 1];
    }
  }
}
