/**
 * `scripts/generate_speech.py`: choosing the newest plain-text chat records of a use case by the
 * time stamp in their names, and the bookkeeping of the run that turns each into an mp3 file.
 * The storage listing, the file system and the speech service are parameters.
 */
module GenerateSpeech {
  import opened Wrappers
  import opened PyStr
  import opened Sorting

  // ---------------------------------------------------------------------------------------------
  // names

  const PlainSuffix := ".plain.txt"

  predicate IsPlain(key: string) {
    EndsWith(key, PlainSuffix)
  }

  /** `key.replace('.plain.txt', '')`. */
  function Stem(key: string): string {
    ReplaceAll(key, PlainSuffix, "")
  }

  /** `f"{parts[0]}_{parts[1]}"` when the stem has at least two '_'-fields, else the stem. */
  function SortStamp(key: string): string {
    var parts := Split(Stem(key), '_');
    if |parts| >= 2 then parts[0] + "_" + parts[1] else Stem(key)
  }

  /** `key.replace('.plain.txt', '.mp3')`. */
  function Mp3Key(key: string): string {
    ReplaceAll(key, PlainSuffix, ".mp3")
  }

  /** Joining parts: the first two parts, then the rest after a separator. */
  lemma JoinFirstTwo(parts: seq<string>, c: char)
    requires |parts| >= 2
    ensures |parts| == 2 ==> Join(parts, [c]) == parts[0] + [c] + parts[1]
    ensures |parts| > 2 ==> Join(parts, [c]) == parts[0] + [c] + parts[1] + [c] + Join(parts[2..], [c])
  {
    var rest := parts[1..];
    assert rest[1..] == parts[2..];
  }

  /**
   * The sort stamp is the stem up to (not including) its second '_', or the whole stem when it
   * has fewer: a prefix of the stem, ending at the end or before a '_', holding a '_' exactly
   * when the stem does, and never two.
   */
  lemma SortStampPrefix(key: string)
    ensures var r := SortStamp(key); var stem := Stem(key);
      StartsWith(stem, r) && (r == stem || stem[|r|] == '_') && ('_' in r <==> '_' in stem) && |Split(r, '_')| <= 2
  {
    var stem := Stem(key);
    var parts := Split(stem, '_');
    SplitJoin(stem, '_');
    SplitMany(stem, '_');
    var r := SortStamp(key);
    if |parts| >= 2 {
      SplitParts(stem, '_');
      JoinFirstTwo(parts, '_');
      if |parts| > 2 {
        assert stem == r + ("_" + Join(parts[2..], "_"));
      }
      assert r == parts[0] + ['_'] + parts[1];
      SplitAround(parts[0], '_', parts[1]);
      SplitNoSep(parts[0], '_');
      SplitNoSep(parts[1], '_');
    } else {
      SplitMany(r, '_');
    }
  }

  /** A key ending in `.plain.txt`, with no other occurrence of it, has that ending turned into `.mp3`. */
  lemma Mp3OfPlain(key: string)
    requires IsPlain(key)
    requires forall j :: 0 <= j < |key| - |PlainSuffix| ==> !StartsWith(key[j..], PlainSuffix)
    ensures Mp3Key(key) == key[..|key| - |PlainSuffix|] + ".mp3"
  {
    var s := key[..|key| - |PlainSuffix|];
    assert key == s + PlainSuffix;
    ReplaceSuffix(s, PlainSuffix, ".mp3");
    forall j | 0 <= j <= |s|
      ensures !StartsWith(s[j..], PlainSuffix)
    {
      ConcatStarts(s, PlainSuffix, j);
    }
    NotContains(s, PlainSuffix);
    ReplaceAbsent(s, PlainSuffix, ".mp3");
  }

  /** What starts at `j` in `s` starts there in `s + o` too. */
  lemma ConcatStarts(s: string, o: string, j: nat)
    requires j <= |s|
    ensures StartsWith(s[j..], o) ==> StartsWith((s + o)[j..], o)
  {
    assert (s + o)[j..] == s[j..] + o;
  }

  /** A text in which `o` starts nowhere does not contain it. */
  lemma {:induction false} NotContains(s: string, o: string)
    requires forall j :: 0 <= j <= |s| ==> !StartsWith(s[j..], o)
    ensures !Contains(s, o)
    decreases |s|
  {
    assert s[0..] == s;
    if |s| > 0 {
      forall j | 0 <= j <= |s[1..]|
        ensures !StartsWith(s[1..][j..], o)
      {
        assert s[1..][j..] == s[j + 1..];
      }
      NotContains(s[1..], o);
    }
  }

  // ---------------------------------------------------------------------------------------------
  // get_plain_text_files

  /** A key with its sort stamp: `(key, timestamp_str)`. */
  datatype Entry = Entry(key: string, stamp: string)

  /** `[key for key in keys if key.endswith('.plain.txt')]`. */
  function Plain(keys: seq<string>): (r: seq<string>)
    ensures |r| <= |keys|
  {
    if |keys| == 0 then []
    else Plain(keys[..|keys| - 1]) + (if IsPlain(keys[|keys| - 1]) then [keys[|keys| - 1]] else [])
  }

  /** The entries built for the plain keys, in their order. */
  function Entries(plain: seq<string>): (r: seq<Entry>)
    ensures |r| == |plain|
  {
    seq(|plain|, i requires 0 <= i < |plain| => Entry(plain[i], SortStamp(plain[i])))
  }

  /** The sort key `lambda x: x[1]` under Python's string order. */
  function StampLe(a: Entry, b: Entry): bool {
    StrLe(a.stamp, b.stamp)
  }

  lemma StampLePreorder()
    ensures Preorder(StampLe)
  {
    forall a: Entry, b: Entry ensures StampLe(a, b) || StampLe(b, a) {
      StrLeTotal(a.stamp, b.stamp);
    }
    forall a: Entry, b: Entry, c: Entry | StampLe(a, b) && StampLe(b, c) ensures StampLe(a, c) {
      StrLeTrans(a.stamp, b.stamp, c.stamp);
    }
  }

  function Keys(entries: seq<Entry>): (r: seq<string>)
    ensures |r| == |entries|
  {
    seq(|entries|, i requires 0 <= i < |entries| => entries[i].key)
  }

  /** The entries newest first, equal stamps in listing order. */
  function Sorted(keys: seq<string>): seq<Entry> {
    SortDesc(Entries(Plain(keys)), StampLe)
  }

  /** `get_plain_text_files(storage_obj, n)` for a storage listing `keys`. */
  function Latest(keys: seq<string>, n: int): seq<string> {
    Keys(PyPrefix(Sorted(keys), n))
  }

  /** The function: the filtering comprehension, the stamping loop, the sort and the final comprehension. */
  method GetPlainTextFiles(keys: seq<string>, n: int) returns (r: seq<string>)
    ensures r == Latest(keys, n)
  {
    var plainFiles := Plain(keys);
    var withStamp: seq<Entry> := [];
    var i := 0;
    while i < |plainFiles|
      invariant i <= |plainFiles| && withStamp == Entries(plainFiles[..i])
    {
      withStamp := withStamp + [Entry(plainFiles[i], SortStamp(plainFiles[i]))];
      i := i + 1;
    }
    assert plainFiles[..|plainFiles|] == plainFiles;
    r := Keys(PyPrefix(SortDesc(withStamp, StampLe), n));
  }

  /** The filter keeps exactly the listed keys that end in `.plain.txt`. */
  lemma {:induction false} PlainMembers(keys: seq<string>)
    ensures forall x :: x in Plain(keys) <==> x in keys && IsPlain(x)
  {
    if |keys| > 0 {
      var pre := keys[..|keys| - 1];
      PlainMembers(pre);
      assert keys == pre + [keys[|keys| - 1]];
    }
  }

  /** How many keys are returned: at most `n`, and fewer only when fewer plain keys are listed. */
  lemma LatestCount(keys: seq<string>, n: int)
    ensures var m := |Plain(keys)|;
      |Latest(keys, n)| == if n >= 0 then (if n <= m then n else m) else (if -n <= m then m + n else 0)
  {
  }

  /** Every key returned is a listed plain key, and they come newest first. */
  lemma LatestSorted(keys: seq<string>, n: int)
    ensures forall i :: 0 <= i < |Latest(keys, n)| ==> Latest(keys, n)[i] in keys && IsPlain(Latest(keys, n)[i])
    ensures forall i, j :: 0 <= i < j < |Latest(keys, n)| ==> StrLe(SortStamp(Latest(keys, n)[j]), SortStamp(Latest(keys, n)[i]))
  {
    var plain := Plain(keys);
    var sorted := Sorted(keys);
    var r := Latest(keys, n);
    PlainMembers(keys);
    StampLePreorder();
    SortDescSorted(Entries(plain), StampLe);
    EntriesSorted(keys);
    var top := PyPrefix(sorted, n);
    forall i | 0 <= i < |r|
      ensures r[i] in keys && IsPlain(r[i])
    {
      EntryOfSorted(keys, i);
    }
    forall i, j | 0 <= i < j < |r|
      ensures StrLe(SortStamp(r[j]), SortStamp(r[i]))
    {
      EntryOfSorted(keys, i);
      EntryOfSorted(keys, j);
      assert StampLe(sorted[j], sorted[i]);
    }
  }

  /** Entry `i` of the sorted list is a plain key with its own stamp. */
  lemma EntryOfSorted(keys: seq<string>, i: nat)
    requires i < |Sorted(keys)|
    ensures Sorted(keys)[i].key in Plain(keys) && Sorted(keys)[i].stamp == SortStamp(Sorted(keys)[i].key)
  {
    var entries := Entries(Plain(keys));
    var e := Sorted(keys)[i];
    assert e in multiset(entries);
    var k :| 0 <= k < |entries| && entries[k] == e;
  }

  /** The sorted list is in descending stamp order. */
  lemma EntriesSorted(keys: seq<string>)
    ensures SortedDesc(Sorted(keys), StampLe)
  {
    StampLePreorder();
    SortDescSorted(Entries(Plain(keys)), StampLe);
  }

  /** A plain key that is left out is no newer than any key returned. */
  lemma LatestNewest(keys: seq<string>, n: int, x: string)
    requires x in keys && IsPlain(x) && x !in Latest(keys, n)
    ensures forall i :: 0 <= i < |Latest(keys, n)| ==> StrLe(SortStamp(x), SortStamp(Latest(keys, n)[i]))
  {
    PlainMembers(keys);
    var plain := Plain(keys);
    var sorted := Sorted(keys);
    var r := Latest(keys, n);
    var k :| 0 <= k < |plain| && plain[k] == x;
    var e := Entries(plain)[k];
    assert e in multiset(sorted);
    var j :| 0 <= j < |sorted| && sorted[j] == e;
    EntriesSorted(keys);
    LatestKeysOfSorted(keys, n);
    PrefixOutranks(sorted, r, j);
    forall i | 0 <= i < |r|
      ensures StrLe(SortStamp(x), SortStamp(r[i]))
    {
      EntryOfSorted(keys, i);
    }
  }

  /** The keys returned are the keys of the first entries of the sorted list. */
  lemma LatestKeysOfSorted(keys: seq<string>, n: int)
    ensures |Latest(keys, n)| <= |Sorted(keys)|
    ensures forall i :: 0 <= i < |Latest(keys, n)| ==> Latest(keys, n)[i] == Sorted(keys)[i].key
  {
  }

  /** An entry of a descending list whose key is not among the keys of a prefix ranks below that prefix. */
  lemma PrefixOutranks(sorted: seq<Entry>, r: seq<string>, j: nat)
    requires SortedDesc(sorted, StampLe)
    requires |r| <= |sorted| && forall i :: 0 <= i < |r| ==> r[i] == sorted[i].key
    requires j < |sorted| && sorted[j].key !in r
    ensures forall i :: 0 <= i < |r| ==> StampLe(sorted[j], sorted[i])
  {
  }

  /** Keys with equal stamps keep the order of the listing (`list.sort` is stable). */
  lemma LatestStable(keys: seq<string>, e: Entry)
    ensures Ties(Sorted(keys), e, StampLe) == Ties(Entries(Plain(keys)), e, StampLe)
  {
    StampLePreorder();
    SortDescStable(Entries(Plain(keys)), e, StampLe);
  }

  // ---------------------------------------------------------------------------------------------
  // process_use_case

  /** Which counter a file increments. */
  datatype Outcome = Processed | Skipped | Failed

  /** What the loop sees of the outside world. */
  datatype World = World(
    found: string -> bool,               // `os.path.exists(mp3_path)` for an mp3 key
    read: string -> Result<string>,      // `open(...).read()` of a key; an exception is an error
    generate: (string, string) -> bool)  // `generate_speech(...)` for a text and an mp3 key: whether it succeeded

  /** One pass of the loop over a file. */
  function OutcomeOf(key: string, w: World, dryRun: bool): Outcome {
    if w.found(Mp3Key(key)) then Skipped
    else
      match w.read(key)
      case Err(_) => Failed
      case Ok(contents) =>
        if Strip(contents) == "" then Skipped
        else if dryRun then Processed
        else if w.generate(Strip(contents), Mp3Key(key)) then Processed
        else Failed
  }

  /** How many of the first `k` files have outcome `o`. */
  function CountOf(files: seq<string>, k: nat, o: Outcome, w: World, dryRun: bool): (r: nat)
    requires k <= |files|
    ensures r <= k
  {
    if k == 0 then 0 else CountOf(files, k - 1, o, w, dryRun) + (if OutcomeOf(files[k - 1], w, dryRun) == o then 1 else 0)
  }

  datatype Counts = Counts(processed: nat, skipped: nat, errors: nat)

  /** `(processed_count, skipped_count, error_count)`. */
  function Tally(files: seq<string>, w: World, dryRun: bool): Counts {
    Counts(CountOf(files, |files|, Processed, w, dryRun), CountOf(files, |files|, Skipped, w, dryRun), CountOf(files, |files|, Failed, w, dryRun))
  }

  /** The counting loop of `process_use_case` over the chosen files. */
  method ProcessUseCase(files: seq<string>, w: World, dryRun: bool) returns (c: Counts)
    ensures c == Tally(files, w, dryRun)
  {
    var processed, skipped, errors := 0, 0, 0;
    var i := 0;
    while i < |files|
      invariant i <= |files|
      invariant processed == CountOf(files, i, Processed, w, dryRun)
      invariant skipped == CountOf(files, i, Skipped, w, dryRun)
      invariant errors == CountOf(files, i, Failed, w, dryRun)
    {
      var key := files[i];
      var mp3Key := Mp3Key(key);
      if w.found(mp3Key) {
        skipped := skipped + 1;
      } else {
        var read := w.read(key);
        if read.Err? {
          errors := errors + 1;
        } else {
          var text := Strip(read.value);
          if text == "" {
            skipped := skipped + 1;
          } else if dryRun {
            processed := processed + 1;
          } else {
            var success := w.generate(text, mp3Key);
            if success {
              processed := processed + 1;
            } else {
              errors := errors + 1;
            }
          }
        }
      }
      i := i + 1;
    }
    c := Counts(processed, skipped, errors);
  }

  /** Every file increments exactly one counter, so the three add up to the number of files. */
  lemma {:induction false} CountsAddUp(files: seq<string>, k: nat, w: World, dryRun: bool)
    requires k <= |files|
    ensures CountOf(files, k, Processed, w, dryRun) + CountOf(files, k, Skipped, w, dryRun) + CountOf(files, k, Failed, w, dryRun) == k
  {
    if k > 0 {
      CountsAddUp(files, k - 1, w, dryRun);
    }
  }

  lemma TallySum(files: seq<string>, w: World, dryRun: bool)
    ensures var c := Tally(files, w, dryRun); c.processed + c.skipped + c.errors == |files|
  {
    CountsAddUp(files, |files|, w, dryRun);
  }

  /** A file whose mp3 already exists is skipped, and a dry run never fails a readable file. */
  lemma OutcomeCases(key: string, w: World, dryRun: bool)
    ensures w.found(Mp3Key(key)) ==> OutcomeOf(key, w, dryRun) == Skipped
    ensures dryRun && w.read(key).Ok? ==> OutcomeOf(key, w, dryRun) != Failed
    ensures OutcomeOf(key, w, dryRun) == Processed ==> !w.found(Mp3Key(key)) && w.read(key).Ok? && Strip(w.read(key).value) != ""
  {
  }
}
