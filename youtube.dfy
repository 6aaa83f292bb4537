/**
 * `scripts/sum_youtube.py`: SRT time stamps, the conversion of an SRT subtitle into running text
 * (captions joined by a space, or by a blank line after a pause), and the choice of one subtitle
 * by language priority. Times are integer milliseconds.
 */
module Youtube {
  import opened Wrappers
  import opened PyStr
  import opened VideoSummary

  // ---------------------------------------------------------------------------------------------
  // SRT times

  /** `\d{2}:\d{2}:\d{2},\d{3}`. */
  predicate IsStamp(t: string) {
    |t| == 12 && IsDigits(t[0..2]) && t[2] == ':' && IsDigits(t[3..5]) && t[5] == ':'
    && IsDigits(t[6..8]) && t[8] == ',' && IsDigits(t[9..12])
  }

  /** `hours, minutes, seconds_ms = t.split(':')` and `seconds, milliseconds = seconds_ms.split(',')`. */
  function SrtFields(t: string): Option<(string, string, string, string)> {
    var hms := Split(t, ':');
    if |hms| != 3 then None
    else
      var sms := Split(hms[2], ',');
      if |sms| != 2 then None else Some((hms[0], hms[1], sms[0], sms[1]))
  }

  /** Milliseconds per hour, minute, second and millisecond. */
  const Weights: seq<int> := [3600000, 60000, 1000, 1]

  /**
   * Each field read by `read` from left to right, each value scaled by its weight and summed: the
   * first field `read` refuses makes the whole fail with its error.
   */
  function WeightedSum(read: string -> Result<int>, fields: seq<string>, weights: seq<int>): Result<int>
    requires |fields| == |weights|
  {
    if |fields| == 0 then Ok(0)
    else
      match read(fields[0])
      case Err(e) => Err(e)
      case Ok(v) =>
        match WeightedSum(read, fields[1..], weights[1..])
        case Err(e) => Err(e)
        case Ok(rest) => Ok(v * weights[0] + rest)
  }

  /** The decimal values of digit fields, scaled and summed. */
  function DigitSum(fields: seq<string>, weights: seq<int>): int
    requires |fields| == |weights|
  {
    if |fields| == 0 then 0 else DecValue(fields[0]) * weights[0] + DigitSum(fields[1..], weights[1..])
  }

  /** A reader that takes digits at their decimal value reads fields of digits as such. */
  lemma {:induction false} WeightedDigits(read: string -> Result<int>, fields: seq<string>, weights: seq<int>)
    requires |fields| == |weights|
    requires forall s :: IsDigits(s) ==> read(s) == Ok(DecValue(s))
    requires forall i :: 0 <= i < |fields| ==> IsDigits(fields[i])
    ensures WeightedSum(read, fields, weights) == Ok(DigitSum(fields, weights))
  {
    if |fields| > 0 {
      var tail := fields[1..];
      assert forall i :: 0 <= i < |tail| ==> IsDigits(tail[i]) by {
        forall i | 0 <= i < |tail| ensures IsDigits(tail[i]) {
          assert tail[i] == fields[i + 1];
        }
      }
      WeightedDigits(read, tail, weights[1..]);
    }
  }

  /** A field that `read` refuses makes the sum fail. */
  lemma {:induction false} WeightedRefused(read: string -> Result<int>, fields: seq<string>, weights: seq<int>, i: nat)
    requires |fields| == |weights| && i < |fields| && read(fields[i]).Err?
    ensures WeightedSum(read, fields, weights).Err?
  {
    if i > 0 && read(fields[0]).Ok? {
      WeightedRefused(read, fields[1..], weights[1..], i - 1);
    }
  }

  /** `int()` reads every text of ASCII digits as its decimal value. */
  lemma PyIntReadsDigits()
    ensures forall s :: IsDigits(s) ==> PyInt(s) == Ok(DecValue(s))
  {
    forall s | IsDigits(s) ensures PyInt(s) == Ok(DecValue(s)) {
      PyIntOfDigits(s);
    }
  }

  /** The four fields read by `int()` from left to right and summed, in milliseconds. */
  function FieldsMs(h: string, m: string, sec: string, ms: string): Result<int> {
    WeightedSum(PyInt, [h, m, sec, ms], Weights)
  }

  /**
   * `srt_time_to_seconds`, in milliseconds: a text that does not unpack into three ':'-fields, the
   * last with one ',', is a ValueError, and so is a field `int()` refuses.
   */
  function SrtTimeMs(t: string): Result<int> {
    match SrtFields(t)
    case None => Err(ValueError)
    case Some((h, m, sec, ms)) => FieldsMs(h, m, sec, ms)
  }

  /** A well-formed stamp unpacks into its four digit fields. */
  lemma StampFields(t: string)
    requires IsStamp(t)
    ensures SrtFields(t) == Some((t[0..2], t[3..5], t[6..8], t[9..12]))
  {
    var h, m, sec, ms := t[0..2], t[3..5], t[6..8], t[9..12];
    var rest := sec + [','] + ms;
    assert t == h + [':'] + (m + [':'] + rest);
    SplitAround(h, ':', m + [':'] + rest);
    SplitAround(m, ':', rest);
    SplitNoSep(h, ':');
    SplitNoSep(m, ':');
    assert ':' !in rest;
    SplitNoSep(rest, ':');
    assert Split(t, ':') == [h, m, rest];
    SplitAround(sec, ',', ms);
    SplitNoSep(sec, ',');
    SplitNoSep(ms, ',');
    assert Split(rest, ',') == [sec, ms];
  }

  /** The value of a well-formed stamp `HH:MM:SS,mmm`, in milliseconds. */
  function StampMs(t: string): int
    requires IsStamp(t)
  {
    DecValue(t[0..2]) * 3600000 + DecValue(t[3..5]) * 60000 + DecValue(t[6..8]) * 1000 + DecValue(t[9..12])
  }

  /** A well-formed stamp is read as HH hours, MM minutes, SS seconds and mmm milliseconds. */
  lemma SrtTimeOfStamp(t: string)
    requires IsStamp(t)
    ensures SrtTimeMs(t) == Ok(StampMs(t))
  {
    StampFields(t);
    var fields := [t[0..2], t[3..5], t[6..8], t[9..12]];
    FieldsOfDigits(fields);
    ClockSum(fields);
  }

  /** Four digit fields are read as their decimal values. */
  lemma FieldsOfDigits(fields: seq<string>)
    requires |fields| == 4 && forall i :: 0 <= i < 4 ==> IsDigits(fields[i])
    ensures FieldsMs(fields[0], fields[1], fields[2], fields[3]) == Ok(DigitSum(fields, Weights))
  {
    var f := [fields[0], fields[1], fields[2], fields[3]];
    assert f == fields;
    assert forall s :: IsDigits(s) ==> PyInt(s) == Ok(DecValue(s)) by {
      PyIntReadsDigits();
    }
    WeightedDigits(PyInt, f, Weights);
  }

  /** The weighted sum of four fields is hours, minutes, seconds and milliseconds. */
  lemma ClockSum(fields: seq<string>)
    requires |fields| == 4
    ensures DigitSum(fields, Weights) == DecValue(fields[0]) * 3600000 + DecValue(fields[1]) * 60000 + DecValue(fields[2]) * 1000 + DecValue(fields[3])
  {
    var f1, w1 := fields[1..], Weights[1..];
    var f2, w2 := f1[1..], w1[1..];
    var f3, w3 := f2[1..], w2[1..];
    assert DigitSum(f3[1..], w3[1..]) == 0;
    assert DigitSum(f3, w3) == DecValue(fields[3]);
    assert DigitSum(f2, w2) == DecValue(fields[2]) * 1000 + DecValue(fields[3]);
    assert DigitSum(f1, w1) == DecValue(fields[1]) * 60000 + DecValue(fields[2]) * 1000 + DecValue(fields[3]);
  }

  // ---------------------------------------------------------------------------------------------
  // the caption pattern

  /** A caption: its start and end stamps and its text. */
  datatype Block = Block(start: string, end: string, text: string)

  predicate NotNewline(c: char) { c != '\n' }

  /** `\d{2}:\d{2}:\d{2},\d{3}\s-->\s\d{2}:\d{2}:\d{2},\d{3}` at `p`. */
  predicate HeaderAt(s: string, p: nat) {
    p + 29 <= |s| && IsStamp(s[p..p + 12]) && IsSpace(s[p + 12]) && s[p + 13..p + 16] == "-->"
    && IsSpace(s[p + 16]) && IsStamp(s[p + 17..p + 29])
  }

  /**
   * Where the caption text starts (`\s*\n`): the greedy `\s*` gives back whitespace up to the last
   * newline of the run that follows the header; no newline in the run, no match.
   */
  function TextStart(s: string, p: nat): (r: Option<nat>)
    requires p + 29 <= |s|
    ensures r.Some? ==> p + 29 < r.value <= |s|
  {
    var w := Span(s, p + 29, IsSpace);
    match LastNewline(s, p + 29, p + 29 + w)
    case None => None
    case Some(j) => Some(j + 1)
  }

  /**
   * The caption pattern as written, under `re.MULTILINE`: the lazy text stops at the first place where
   * `$` holds, which is the first newline (or the end of the text).
   */
  function BlockAt(s: string, p: nat): Option<(nat, Block)> {
    if !HeaderAt(s, p) then None
    else
      match TextStart(s, p)
      case None => None
      case Some(t0) =>
        var e := t0 + Span(s, t0, NotNewline);
        Some((e, Block(s[p..p + 12], s[p + 17..p + 29], s[t0..e])))
  }

  /** `\n\d+\s*\n` at `e`: a newline, the number of the next caption, and whitespace holding a newline. */
  predicate IndexLineAt(s: string, e: nat) {
    e < |s| && s[e] == '\n'
    && var d := Span(s, e + 1, IsDigit);
       d > 0 && LastNewline(s, e + 1 + d, e + 1 + d + Span(s, e + 1 + d, IsSpace)).Some?
  }

  /** The first position from `e` on where the next caption's number line starts, or the end. */
  function TextEnd(s: string, e: nat): (r: nat)
    requires e <= |s|
    ensures e <= r <= |s|
    decreases |s| - e
  {
    if e == |s| || IndexLineAt(s, e) then e else TextEnd(s, e + 1)
  }

  /**
   * The caption pattern as its comment describes it: the text runs over line breaks up to the next
   * caption's number line or the end of the subtitle.
   */
  function IntendedBlockAt(s: string, p: nat): Option<(nat, Block)> {
    if !HeaderAt(s, p) then None
    else
      match TextStart(s, p)
      case None => None
      case Some(t0) =>
        var e := TextEnd(s, t0);
        Some((e, Block(s[p..p + 12], s[p + 17..p + 29], s[t0..e])))
  }

  function AsWrittenPattern(s: string): nat -> Option<(nat, Block)> {
    (p: nat) => BlockAt(s, p)
  }

  function IntendedPattern(s: string): nat -> Option<(nat, Block)> {
    (p: nat) => IntendedBlockAt(s, p)
  }

  /** As written, no caption text ever holds a line break: the lines after a caption's first are lost. */
  lemma AsWrittenOneLine(s: string)
    ensures forall i :: 0 <= i < |FindAll(s, AsWrittenPattern(s), 0)| ==> '\n' !in FindAll(s, AsWrittenPattern(s), 0)[i].text
  {
    var ok := (b: Block) => '\n' !in b.text;
    forall q: nat | AsWrittenPattern(s)(q).Some?
      ensures ok(AsWrittenPattern(s)(q).value.1)
    {
      var t0 := TextStart(s, q).value;
      SpanExcludes(s, t0, NotNewline, '\n');
    }
    FindAllAll(s, AsWrittenPattern(s), 0, ok);
  }

  /** A header `h`, a line break and a caption starting with a non-space: the text starts at 30. */
  lemma HeaderThenText(h: string, rest: string)
    requires |h| == 29 && HeaderAt(h, 0)
    requires |rest| > 1 && rest[0] == '\n' && !IsSpace(rest[1])
    ensures HeaderAt(h + rest, 0) && TextStart(h + rest, 0) == Some(30)
    ensures (h + rest)[0..12] == h[0..12] && (h + rest)[17..29] == h[17..29]
  {
    var s := h + rest;
    assert s[0..12] == h[0..12] && s[13..16] == h[13..16] && s[17..29] == h[17..29];
    assert s[12] == h[12] && s[16] == h[16];
    assert HeaderAt(s, 0);
    assert s[29] == '\n' && s[30] == rest[1];
    SpanOf(s, 29, 1, IsSpace);
    assert LastNewline(s, 29, 30) == Some(29);
  }

  /** A two-line caption `a`, `b` after a header `h`, as written: only `a` is captured. */
  lemma AsWrittenDropsSecondLine(h: string, a: string, b: string)
    requires |h| == 29 && HeaderAt(h, 0)
    requires |a| > 0 && !IsSpace(a[0]) && '\n' !in a
    ensures BlockAt(h + "\n" + a + "\n" + b, 0) == Some((30 + |a|, Block(h[0..12], h[17..29], a)))
  {
    var tail := a + "\n" + b;
    var rest := "\n" + tail;
    assert h + "\n" + a + "\n" + b == h + rest;
    var s := h + rest;
    assert rest[1] == a[0];
    HeaderThenText(h, rest);
    assert s[30..] == tail;
    assert s[30..30 + |a|] == tail[..|a|] == a && s[30 + |a|] == tail[|a|] == '\n';
    FirstLineBlock(s, h, a);
  }

  /** A header, its break at 29 and a line `a` ending in a break: the as-written text is `a`. */
  lemma FirstLineBlock(s: string, h: string, a: string)
    requires |h| == 29 && HeaderAt(s, 0) && TextStart(s, 0) == Some(30)
    requires s[0..12] == h[0..12] && s[17..29] == h[17..29]
    requires 30 + |a| < |s| && s[30..30 + |a|] == a && s[30 + |a|] == '\n' && '\n' !in a
    ensures BlockAt(s, 0) == Some((30 + |a|, Block(h[0..12], h[17..29], a)))
  {
    SpanOf(s, 30, |a|, NotNewline);
  }

  /** With no number line from `e` on, the intended text runs to the end. */
  lemma {:induction false} TextEndNoIndex(s: string, e: nat)
    requires e <= |s| && forall q :: e <= q < |s| ==> !IndexLineAt(s, q)
    ensures TextEnd(s, e) == |s|
    decreases |s| - e
  {
    if e < |s| {
      TextEndNoIndex(s, e + 1);
    }
  }

  /** A two-line caption `a`, `b` after a header `h`, as intended: the whole of `a`, the break and `b`. */
  lemma IntendedKeepsSecondLine(h: string, a: string, b: string)
    requires |h| == 29 && HeaderAt(h, 0)
    requires |a| > 0 && !IsSpace(a[0]) && '\n' !in a && '\n' !in b && (|b| == 0 || !IsDigit(b[0]))
    ensures IntendedBlockAt(h + "\n" + a + "\n" + b, 0) == Some((|h + "\n" + a + "\n" + b|, Block(h[0..12], h[17..29], a + "\n" + b)))
  {
    var tail := a + "\n" + b;
    var rest := "\n" + tail;
    assert h + "\n" + a + "\n" + b == h + rest;
    var s := h + rest;
    assert rest[1] == a[0];
    HeaderThenText(h, rest);
    assert s[30..] == rest[1..] == tail;
    CaptionRunsToEnd(s, a, b);
  }

  /** Caption lines `a`, `b` from 30 to the end, with no number line: the intended text is all of them. */
  lemma CaptionRunsToEnd(s: string, a: string, b: string)
    requires |s| >= 30 && s[30..] == a + "\n" + b
    requires '\n' !in a && '\n' !in b && (|b| == 0 || !IsDigit(b[0]))
    ensures TextEnd(s, 30) == |s| && s[30..TextEnd(s, 30)] == a + "\n" + b
  {
    assert |s| == 31 + |a| + |b|;
    NoIndexLine(s, a, b);
    TextEndNoIndex(s, 30);
  }

  /** After the header's line break, only a line break at the end of `a` could start a number line. */
  lemma NoIndexLine(s: string, a: string, b: string)
    requires |s| == 31 + |a| + |b| && s[30..] == a + "\n" + b
    requires '\n' !in a && '\n' !in b && (|b| == 0 || !IsDigit(b[0]))
    ensures forall q :: 30 <= q < |s| ==> !IndexLineAt(s, q)
  {
    forall q | 30 <= q < |s|
      ensures !IndexLineAt(s, q)
    {
      assert s[q] == s[30..][q - 30];
      if q == 30 + |a| && q + 1 < |s| {
        assert s[q + 1] == s[30..][q + 1 - 30] == b[0];
      }
    }
  }

  // ---------------------------------------------------------------------------------------------
  // youtube_subtitle_smart_convert

  /** What the conversion returns when the subtitle holds no caption. */
  const NoSubtitle := "未找到有效的字幕格式"

  /** `re.sub(r'^视频地址:.*', '', content)`: an address line at the very start loses its text. */
  function DropAddress(content: string): string {
    if StartsWith(content, "视频地址:") then content[Span(content, 0, NotNewline)..] else content
  }

  /** `text_content.replace('\n', ' ').strip()`. */
  function Clean(text: string): (r: string)
    ensures '\n' !in r
    ensures |r| == 0 || (!IsSpace(r[0]) && !IsSpace(r[|r| - 1]))
  {
    ReplaceCharRemoves(text, '\n', " ");
    var t := ReplaceAll(text, "\n", " ");
    StripInside(t, '\n');
    Strip(t)
  }

  /** A caption with its times read, as the loop keeps it. */
  datatype Timed = Timed(start: int, end: int, text: string)

  /** The loop's locals: `final_text`, `last_end_seconds` (in milliseconds) and `is_first_block`. */
  datatype Joined = Joined(parts: seq<string>, lastEnd: int, first: bool)

  const Fresh := Joined([], 0, true)

  /** Reads stamps; the conversion reads them with `SrtTimeMs`. */
  type Reader = string -> Result<int>

  /** One pass of the loop, reading the caption's two stamps with `read`. */
  function JoinStep(st: Joined, b: Block, gapMs: int, read: Reader): Result<Joined> {
    match (read(b.start), read(b.end))
    case (Err(e), _) => Err(e)
    case (_, Err(e)) => Err(e)
    case (Ok(start), Ok(end)) =>
      var clean := Clean(b.text);
      if clean == "" then Ok(st)
      else if st.first then Ok(Joined(st.parts + [clean], end, false))
      else Ok(Joined(st.parts + [(if start - st.lastEnd > gapMs then "\n\n" else " ") + clean], end, false))
  }

  /** The loop over the first `k` captures. */
  function JoinUpTo(blocks: seq<Block>, k: nat, gapMs: int, read: Reader): Result<Joined>
    requires k <= |blocks|
  {
    if k == 0 then Ok(Fresh)
    else
      match JoinUpTo(blocks, k - 1, gapMs, read)
      case Err(e) => Err(e)
      case Ok(st) => JoinStep(st, blocks[k - 1], gapMs, read)
  }

  /** The conversion, with the caption pattern a parameter. */
  function ConvertWith(content: string, gapMs: int, pattern: string -> (nat -> Option<(nat, Block)>)): Result<string> {
    var c := Strip(DropAddress(content));
    var blocks := FindAll(c, pattern(c), 0);
    if blocks == [] then Ok(NoSubtitle)
    else
      match JoinUpTo(blocks, |blocks|, gapMs, SrtTimeMs)
      case Err(e) => Err(e)
      case Ok(st) => Ok(Join(st.parts, ""))
  }

  /**
   * `youtube_subtitle_smart_convert` as written. It never fails, and without a match anywhere it
   * gives the fixed message.
   */
  function ConvertAsWritten(content: string, gapMs: int): (r: Result<string>)
    ensures r.Ok?
    ensures var c := Strip(DropAddress(content));
      (forall q: nat :: q < |c| ==> BlockAt(c, q).None?) ==> r == Ok(NoSubtitle)
  {
    var c := Strip(DropAddress(content));
    var blocks := FindAll(c, AsWrittenPattern(c), 0);
    CapturedAsWritten(c);
    SrtTimeReadsStamps();
    JoinKept(blocks, |blocks|, gapMs, SrtTimeMs);
    FindAllEmpty(c, AsWrittenPattern(c), 0);
    ConvertWith(content, gapMs, AsWrittenPattern)
  }

  /**
   * `youtube_subtitle_smart_convert` with multi-line captions kept whole. It never fails, and
   * without a match anywhere it gives the fixed message.
   */
  function Convert(content: string, gapMs: int): (r: Result<string>)
    ensures r.Ok?
    ensures var c := Strip(DropAddress(content));
      (forall q: nat :: q < |c| ==> IntendedBlockAt(c, q).None?) ==> r == Ok(NoSubtitle)
  {
    var c := Strip(DropAddress(content));
    var blocks := FindAll(c, IntendedPattern(c), 0);
    Captured(c);
    SrtTimeReadsStamps();
    JoinKept(blocks, |blocks|, gapMs, SrtTimeMs);
    FindAllEmpty(c, IntendedPattern(c), 0);
    ConvertWith(content, gapMs, IntendedPattern)
  }

  /** The loop of the conversion over the captures, reading stamps with `read`. */
  method JoinBlocks(blocks: seq<Block>, gapMs: int, read: Reader) returns (r: Result<Joined>)
    ensures r == JoinUpTo(blocks, |blocks|, gapMs, read)
  {
    r := Ok(Fresh);
    var i := 0;
    while i < |blocks| && r.Ok?
      invariant i <= |blocks| && JoinUpTo(blocks, i, gapMs, read) == r
    {
      r := JoinNext(blocks, i, gapMs, read, r.value);
      i := i + 1;
    }
    if r.Err? {
      JoinSticks(blocks, i, |blocks|, gapMs, read);
    }
  }

  /** The pass over capture `k`, after the first `k` left the loop's locals at `st`. */
  method JoinNext(blocks: seq<Block>, k: nat, gapMs: int, read: Reader, st: Joined) returns (r: Result<Joined>)
    requires k < |blocks| && JoinUpTo(blocks, k, gapMs, read) == Ok(st)
    ensures r == JoinUpTo(blocks, k + 1, gapMs, read)
  {
    r := JoinOne(st, blocks[k], gapMs, read);
  }

  /** The body of the loop for one capture: its times, its cleaned text, and how it is attached. */
  method JoinOne(st: Joined, b: Block, gapMs: int, read: Reader) returns (r: Result<Joined>)
    ensures r == JoinStep(st, b, gapMs, read)
  {
    var start := read(b.start);
    if start.Err? {
      return Err(start.error);
    }
    var end := read(b.end);
    if end.Err? {
      return Err(end.error);
    }
    var clean := Clean(b.text);
    if clean == "" {
      return Ok(st);
    }
    var finalText := st.parts;
    if st.first {
      finalText := finalText + [clean];
    } else {
      var gap := start.value - st.lastEnd;
      if gap > gapMs {
        finalText := finalText + ["\n\n" + clean];
      } else {
        finalText := finalText + [" " + clean];
      }
    }
    return Ok(Joined(finalText, end.value, false));
  }

  /** An error stops the loop for good. */
  lemma {:induction false} JoinSticks(blocks: seq<Block>, k: nat, m: nat, gapMs: int, read: Reader)
    requires k <= m <= |blocks| && JoinUpTo(blocks, k, gapMs, read).Err?
    ensures JoinUpTo(blocks, m, gapMs, read) == JoinUpTo(blocks, k, gapMs, read)
    decreases m - k
  {
    if k < m {
      JoinSticks(blocks, k, m - 1, gapMs, read);
    }
  }

  /** `youtube_subtitle_smart_convert(subtitle_content, gap_threshold)`, with the threshold in milliseconds. */
  method SmartConvert(content: string, gapMs: int) returns (r: Result<string>)
    ensures r == Convert(content, gapMs)
  {
    var c := Strip(DropAddress(content));
    var blocks := FindAll(c, IntendedPattern(c), 0);
    if blocks == [] {
      return Ok(NoSubtitle);
    }
    var st := JoinBlocks(blocks, gapMs, SrtTimeMs);
    if st.Err? {
      return Err(st.error);
    }
    r := Ok(Join(st.value.parts, ""));
  }

  // ---------------------------------------------------------------------------------------------
  // what the conversion makes of the captions

  predicate Stamped(b: Block) {
    IsStamp(b.start) && IsStamp(b.end)
  }

  /** `SrtTimeMs` reads every well-formed stamp as its value. */
  ghost predicate ReadsStamps(read: Reader) {
    forall t :: IsStamp(t) ==> read(t) == Ok(StampMs(t))
  }

  lemma SrtTimeReadsStamps()
    ensures ReadsStamps(SrtTimeMs)
  {
    forall t | IsStamp(t) ensures SrtTimeMs(t) == Ok(StampMs(t)) {
      SrtTimeOfStamp(t);
    }
  }

  /** The captions kept among the first `k`: those whose cleaned text is not empty, with their times. */
  function Kept(blocks: seq<Block>, k: nat): (r: seq<Timed>)
    requires k <= |blocks| && forall i :: 0 <= i < |blocks| ==> Stamped(blocks[i])
    ensures |r| <= k
  {
    if k == 0 then []
    else
      var b := blocks[k - 1];
      assert Stamped(b);
      if Clean(b.text) == "" then Kept(blocks, k - 1)
      else Kept(blocks, k - 1) + [Timed(StampMs(b.start), StampMs(b.end), Clean(b.text))]
  }

  /** What goes before kept caption `i`: nothing for the first, else a blank line after a pause longer than the threshold, else a space. */
  function Seam(kept: seq<Timed>, i: nat, gapMs: int): string
    requires i < |kept|
  {
    if i == 0 then "" else if kept[i].start - kept[i - 1].end > gapMs then "\n\n" else " "
  }

  /** The pieces of the text: each kept caption after its seam. */
  function Pieces(kept: seq<Timed>, gapMs: int): (r: seq<string>)
    ensures |r| == |kept|
  {
    seq(|kept|, i requires 0 <= i < |kept| => Seam(kept, i, gapMs) + kept[i].text)
  }

  /** The loop's state after `k` captures, as the kept captions determine it. */
  predicate JoinedKept(st: Joined, kept: seq<Timed>, gapMs: int) {
    st.parts == Pieces(kept, gapMs) && st.first == (kept == []) && (kept != [] ==> st.lastEnd == kept[|kept| - 1].end)
  }

  /**
   * The loop builds exactly the kept captions with their seams: blank captions are skipped and do
   * not move the end time a pause is measured from, and it never fails on stamped captions.
   */
  lemma {:induction false} JoinKept(blocks: seq<Block>, k: nat, gapMs: int, read: Reader)
    requires k <= |blocks| && forall i :: 0 <= i < |blocks| ==> Stamped(blocks[i])
    requires ReadsStamps(read)
    ensures JoinUpTo(blocks, k, gapMs, read).Ok? && JoinedKept(JoinUpTo(blocks, k, gapMs, read).value, Kept(blocks, k), gapMs)
  {
    if k > 0 {
      JoinKept(blocks, k - 1, gapMs, read);
      var b := blocks[k - 1];
      assert Stamped(b);
      var st := JoinUpTo(blocks, k - 1, gapMs, read).value;
      JoinStepKept(st, Kept(blocks, k - 1), b, gapMs, read);
    }
  }

  /** One pass of the loop keeps the state in step with the kept captions. */
  lemma JoinStepKept(st: Joined, prev: seq<Timed>, b: Block, gapMs: int, read: Reader)
    requires Stamped(b) && ReadsStamps(read) && JoinedKept(st, prev, gapMs)
    ensures JoinStep(st, b, gapMs, read).Ok?
    ensures Clean(b.text) == "" ==> JoinStep(st, b, gapMs, read) == Ok(st)
    ensures Clean(b.text) != "" ==>
      JoinedKept(JoinStep(st, b, gapMs, read).value, prev + [Timed(StampMs(b.start), StampMs(b.end), Clean(b.text))], gapMs)
  {
    assert read(b.start) == Ok(StampMs(b.start)) && read(b.end) == Ok(StampMs(b.end));
    if Clean(b.text) != "" {
      var kept := prev + [Timed(StampMs(b.start), StampMs(b.end), Clean(b.text))];
      assert Pieces(kept, gapMs) == Pieces(prev, gapMs) + [Seam(kept, |prev|, gapMs) + Clean(b.text)];
      if st.first {
        assert Seam(kept, |prev|, gapMs) + Clean(b.text) == Clean(b.text);
      } else {
        assert kept[|prev| - 1] == prev[|prev| - 1];
      }
    }
  }

  /** Every capture has well-formed stamps. */
  lemma Captured(s: string)
    ensures forall i :: 0 <= i < |FindAll(s, IntendedPattern(s), 0)| ==> Stamped(FindAll(s, IntendedPattern(s), 0)[i])
  {
    FindAllAll(s, IntendedPattern(s), 0, Stamped);
  }

  /** Every capture of the pattern as written has well-formed stamps too. */
  lemma CapturedAsWritten(s: string)
    ensures forall i :: 0 <= i < |FindAll(s, AsWrittenPattern(s), 0)| ==> Stamped(FindAll(s, AsWrittenPattern(s), 0)[i])
  {
    FindAllAll(s, AsWrittenPattern(s), 0, Stamped);
  }

  /**
   * The conversion never fails. Without a caption it gives the fixed message; otherwise it is the
   * kept captions joined by their seams, the first one bare.
   */
  lemma ConvertText(content: string, gapMs: int) returns (blocks: seq<Block>)
    ensures var c := Strip(DropAddress(content)); blocks == FindAll(c, IntendedPattern(c), 0)
    ensures forall i :: 0 <= i < |blocks| ==> Stamped(blocks[i])
    ensures Convert(content, gapMs) == Ok(if blocks == [] then NoSubtitle else Join(Pieces(Kept(blocks, |blocks|), gapMs), ""))
  {
    var c := Strip(DropAddress(content));
    blocks := FindAll(c, IntendedPattern(c), 0);
    Captured(c);
    if blocks != [] {
      SrtTimeReadsStamps();
      JoinKept(blocks, |blocks|, gapMs, SrtTimeMs);
    }
  }

  // ---------------------------------------------------------------------------------------------
  // choosing a subtitle

  /** The first subtitle in `subs` of language `p`. */
  function FirstOf(subs: seq<Subtitle>, p: string, n: nat): (r: Option<nat>)
    requires n <= |subs|
    ensures r.Some? ==> r.value < n && subs[r.value].lang == p && forall j :: 0 <= j < r.value ==> subs[j].lang != p
    ensures r.None? ==> forall j :: 0 <= j < n ==> subs[j].lang != p
  {
    if n == 0 then None
    else match FirstOf(subs, p, n - 1)
      case Some(j) => Some(j)
      case None => if subs[n - 1].lang == p then Some(n - 1) else None
  }

  /**
   * The priority loop over the first `k` languages: the subtitle picked so far, and whether the
   * loop broke off (`if contents: break`, so an empty subtitle does not stop it).
   */
  function ChooseUpTo(subs: seq<Subtitle>, k: nat): (r: (Option<Subtitle>, bool))
    requires k <= |Priority|
  {
    if k == 0 then (None, false)
    else
      var (chosen, done) := ChooseUpTo(subs, k - 1);
      if done then (chosen, done)
      else
        var picked := match FirstOf(subs, Priority[k - 1], |subs|) case None => chosen case Some(j) => Some(subs[j]);
        (picked, picked.Some? && picked.value.contents != "")
  }

  /** The subtitle the script goes on with; none picked fails its `assert contents is not None`. */
  function Choose(subs: seq<Subtitle>): Result<Subtitle> {
    match ChooseUpTo(subs, |Priority|).0
    case None => Err(AssertionError)
    case Some(s) => Ok(s)
  }

  /** The nested priority loop with its two `break`s. */
  method ChooseSubtitle(subs: seq<Subtitle>) returns (r: Result<Subtitle>)
    ensures r == Choose(subs)
  {
    var contents: Option<Subtitle> := None;
    for k := 0 to |Priority|
      invariant ChooseUpTo(subs, k) == (contents, false)
    {
      var p := Priority[k];
      for j := 0 to |subs|
        invariant FirstOf(subs, p, j).None?
      {
        if subs[j].lang == p {
          contents := Some(subs[j]);
          assert FirstOf(subs, p, |subs|) == Some(j) by {
            FirstOfFound(subs, p, j, |subs|);
          }
          break;
        }
      }
      if contents.Some? && contents.value.contents != "" {
        ChooseDone(subs, k + 1, |Priority|);
        return Ok(contents.value);
      }
    }
    return if contents.None? then Err(AssertionError) else Ok(contents.value);
  }

  lemma {:induction false} FirstOfFound(subs: seq<Subtitle>, p: string, j: nat, n: nat)
    requires j < n <= |subs| && subs[j].lang == p && FirstOf(subs, p, j).None?
    ensures FirstOf(subs, p, n) == Some(j)
  {
    if n > j + 1 {
      FirstOfFound(subs, p, j, n - 1);
    }
  }

  lemma {:induction false} ChooseDone(subs: seq<Subtitle>, k: nat, m: nat)
    requires k <= m <= |Priority| && ChooseUpTo(subs, k).1
    ensures ChooseUpTo(subs, m) == ChooseUpTo(subs, k)
    decreases m - k
  {
    if k < m {
      ChooseDone(subs, k, m - 1);
    }
  }

  /** For the first `k` languages, nothing is picked exactly when no subtitle has any of them. */
  lemma {:induction false} ChooseNone(subs: seq<Subtitle>, k: nat)
    requires k <= |Priority|
    ensures ChooseUpTo(subs, k).0.None? <==> forall i, j :: 0 <= i < k && 0 <= j < |subs| ==> subs[j].lang != Priority[i]
    ensures ChooseUpTo(subs, k).0.Some? ==> ChooseUpTo(subs, k).0.value in subs
  {
    if k > 0 {
      ChooseNone(subs, k - 1);
      ChooseNotDone(subs, k - 1);
      var (chosen, done) := ChooseUpTo(subs, k - 1);
      if done {
        assert chosen.Some?;
        var j :| 0 <= j < |subs| && subs[j] == chosen.value;
        var i :| 0 <= i < k - 1 && subs[j].lang == Priority[i] by {
          ChooseLanguage(subs, k - 1);
        }
      }
    }
  }

  /** A picked subtitle has one of the first `k` languages. */
  lemma {:induction false} ChooseLanguage(subs: seq<Subtitle>, k: nat)
    requires k <= |Priority|
    ensures ChooseUpTo(subs, k).0.Some? ==> exists j, i :: 0 <= j < |subs| && 0 <= i < k && subs[j] == ChooseUpTo(subs, k).0.value && subs[j].lang == Priority[i]
  {
    if k > 0 {
      ChooseLanguage(subs, k - 1);
    }
  }

  /**
   * The subtitle chosen is the first one, in list order, of the first priority language any
   * subtitle has, when its contents are not empty.
   */
  lemma ChooseFirst(subs: seq<Subtitle>, i: nat, j: nat)
    requires i < |Priority| && j < |subs| && subs[j].lang == Priority[i] && subs[j].contents != ""
    requires forall j' :: 0 <= j' < j ==> subs[j'].lang != Priority[i]
    requires forall i', j' :: 0 <= i' < i && 0 <= j' < |subs| ==> subs[j'].lang != Priority[i']
    ensures Choose(subs) == Ok(subs[j])
  {
    ChooseNone(subs, i);
    assert !ChooseUpTo(subs, i).1 by {
      ChooseNotDone(subs, i);
    }
    FirstOfFound(subs, Priority[i], j, |subs|) by {
      FirstOfNone(subs, Priority[i], j);
    }
    ChooseDone(subs, i + 1, |Priority|);
  }

  lemma FirstOfNone(subs: seq<Subtitle>, p: string, n: nat)
    requires n <= |subs| && forall j :: 0 <= j < n ==> subs[j].lang != p
    ensures FirstOf(subs, p, n).None?
  {
  }

  /** The loop breaks off only once something is picked. */
  lemma {:induction false} ChooseNotDone(subs: seq<Subtitle>, k: nat)
    requires k <= |Priority|
    ensures ChooseUpTo(subs, k).1 ==> ChooseUpTo(subs, k).0.Some?
  {
    if k > 0 {
      ChooseNotDone(subs, k - 1);
    }
  }
}
