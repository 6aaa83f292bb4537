/**
 * The Hacker News front-page parser of `scripts/sum_hackernews.py` (`extract_articles`): each markdown
 * line is split on '|' and its parts are scanned left to right for a rank (`12.`), an item id
 * (`?id=…`), a title link two parts after the rank, and a "N comments" link on the line below a title.
 * A title line appends an article; a comments line updates the articles that carry its id.
 */
module HackerNews {
  import opened Wrappers
  import opened PyStr

  /** The locals of one pass over a line's parts: `part_ind`, `base_ind`, `seq`, `hn_id`, … and whether it broke off. */
  datatype LineScan = LineScan(
    ind: nat, baseInd: Option<nat>, seqNo: Option<int>, hnId: Option<string>,
    title: Option<string>, link: Option<string>, comments: Option<int>, commentsLink: Option<string>,
    stopped: bool)

  const LineStart := LineScan(0, None, None, None, None, None, None, None, false)

  /** One entry of the result list. */
  datatype Article = Article(
    hnId: string, seqNo: Option<int>, title: string, link: Option<string>,
    comments: Option<int>, commentsLink: Option<string>)

  predicate NotCloseBracket(c: char) { c != ']' }

  predicate NotCloseParen(c: char) { c != ')' }

  predicate IsBlank(c: char) { c == ' ' }

  /** `^(\d+)\.` on a part: the value of its leading digits when a '.' follows them. */
  function SeqNumber(part: string): Option<nat> {
    var n := Span(part, 0, IsDigit);
    if 0 < n < |part| && part[n] == '.' then Some(DecValue(part[..n])) else None
  }

  /** `\?id=(\d+)` matched at position `p`: the digits after "?id=". */
  function IdAt(part: string, p: nat): (r: Option<string>)
    ensures r.Some? ==> p + 4 + |r.value| <= |part| && part[p..p + 4] == "?id=" && IsDigits(r.value)
                        && r.value == part[p + 4..p + 4 + |r.value|]
                        && (p + 4 + |r.value| == |part| || !IsDigit(part[p + 4 + |r.value|]))
  {
    if p + 4 <= |part| && part[p..p + 4] == "?id=" then
      var n := Span(part, p + 4, IsDigit);
      SpanAccepts(part, p + 4, IsDigit);
      if n > 0 then Some(part[p + 4..p + 4 + n]) else None
    else None
  }

  function IdPattern(part: string): nat -> Option<string> {
    (p: nat) => IdAt(part, p)
  }

  /** `hn_id_re.search(part)`: the id of the leftmost "?id=<digits>" in the part. */
  function HnIdIn(part: string): Option<string> {
    Search(IdPattern(part), 0, |part|)
  }

  /**
   * `link_re.match(part)` for `\[([^]]*)\] *\((http[^)]*)\)`, anchored at the start: the text up to
   * the first ']', then spaces, '(' and an "http" target up to the first ')'.
   */
  function LinkMatch(part: string): Option<(string, string)> {
    if |part| == 0 || part[0] != '[' then None
    else LinkAfterText(part, 1 + Span(part, 1, NotCloseBracket))
  }

  /** The rest of the match once the text ends at `k`, where a ']' is needed. */
  function LinkAfterText(part: string, k: nat): Option<(string, string)>
    requires 0 < k <= |part|
  {
    if k == |part| then None else LinkAfterSpaces(part, k, k + 1 + Span(part, k + 1, IsBlank))
  }

  /** The rest of the match once the spaces after ']' end at `o`, where "(http" is needed. */
  function LinkAfterSpaces(part: string, k: nat, o: nat): Option<(string, string)>
    requires 0 < k < o <= |part|
  {
    if HttpOpen(part, o) then LinkTarget(part, k, o, o + 5 + Span(part, o + 5, NotCloseParen)) else None
  }

  /** "(http" starts at `o`. */
  predicate HttpOpen(part: string, o: nat) {
    o + 5 <= |part| && part[o] == '(' && part[o + 1] == 'h' && part[o + 2] == 't' && part[o + 3] == 't' && part[o + 4] == 'p'
  }

  /** The match once the target runs to `e`, where a ')' is needed. */
  function LinkTarget(part: string, k: nat, o: nat, e: nat): Option<(string, string)>
    requires 0 < k < o < e <= |part|
  {
    if e < |part| then Some((part[1..k], part[o + 1..e])) else None
  }

  /** The link text reads "<word> comment…": exactly two space-separated fields, the second starting "comment". */
  predicate CommentText(text: string) {
    ' ' in text && |Split(text, ' ')| == 2 && StartsWith(Split(text, ' ')[1], "comment")
  }

  /** One iteration of the loop over the parts of a line. */
  function PartStep(st: LineScan, raw: string): Result<LineScan> {
    if st.stopped then Ok(st)
    else
      var part := Strip(raw);
      var next := st.(ind := st.ind + 1);
      if part == "" then Ok(next)
      else if SeqNumber(part).Some? then Ok(next.(seqNo := Some(SeqNumber(part).value), baseInd := Some(st.ind)))
      else
        var found := if HnIdIn(part).Some? then next.(hnId := HnIdIn(part)) else next;
        if st.baseInd.Some? && st.ind == st.baseInd.value + 2 then
          match LinkMatch(part)
          case None => Ok(found)
          case Some(m) => Ok(found.(title := Some(m.0), link := Some(m.1)))
        else if st.baseInd.None? then
          match LinkMatch(part)
          case None => Ok(found)
          case Some(m) =>
            if !CommentText(m.0) then Ok(found)
            else
              match PyInt(Split(m.0, ' ')[0])
              case Err(e) => Err(e)
              case Ok(c) => Ok(found.(comments := Some(c), commentsLink := Some(m.1), stopped := true))
        else Ok(found)
  }

  /** The scan of the first `k` parts of a line. */
  function ScanUpTo(parts: seq<string>, k: nat): Result<LineScan>
    requires k <= |parts|
  {
    Fold(PartStep, LineStart, parts, k)
  }

  /** The scan of a whole line. */
  function ScanOf(line: string): Result<LineScan> {
    ScanUpTo(Split(line, '|'), |Split(line, '|')|)
  }

  /** Once the loop has broken off, the remaining parts change nothing. */
  lemma {:induction false} StoppedStays(parts: seq<string>, k: nat, m: nat, st: LineScan)
    requires k <= m <= |parts| && ScanUpTo(parts, k) == Ok(st) && st.stopped
    ensures ScanUpTo(parts, m) == Ok(st)
    decreases m - k
  {
    if k < m {
      StoppedStays(parts, k, m - 1, st);
    }
  }

  /** One more part of the scan, as the loop body computes it. */
  lemma ScanAdvance(parts: seq<string>, i: nat, st: LineScan)
    requires i < |parts| && ScanUpTo(parts, i) == Ok(st)
    ensures ScanUpTo(parts, i + 1) == PartStep(st, parts[i])
    ensures PartStep(st, parts[i]).Err? ==> ScanUpTo(parts, |parts|) == PartStep(st, parts[i])
  {
    if PartStep(st, parts[i]).Err? {
      FoldErrorSticks(PartStep, LineStart, parts, i + 1, |parts|);
    }
  }

  /** The loop over the parts of one line (`for part_ind, part in enumerate(parts)`). */
  method ScanParts(parts: seq<string>) returns (r: Result<LineScan>)
    ensures r == ScanUpTo(parts, |parts|)
  {
    var baseInd: Option<nat> := None;
    var seqNo: Option<int> := None;
    var hnId: Option<string> := None;
    var title: Option<string> := None;
    var link: Option<string> := None;
    var comments: Option<int> := None;
    var commentsLink: Option<string> := None;
    for i := 0 to |parts|
      invariant ScanUpTo(parts, i) == Ok(LineScan(i, baseInd, seqNo, hnId, title, link, comments, commentsLink, false))
    {
      ghost var st := LineScan(i, baseInd, seqNo, hnId, title, link, comments, commentsLink, false);
      ScanAdvance(parts, i, st);
      var part := Strip(parts[i]);
      if part == "" {
        continue;
      }
      var sq := SeqNumber(part);
      if sq.Some? {
        seqNo := Some(sq.value);
        baseInd := Some(i);
        continue;
      }
      var idMatch := HnIdIn(part);
      if idMatch.Some? {
        hnId := idMatch;
      }
      if baseInd.Some? && i == baseInd.value + 2 {
        var m := LinkMatch(part);
        if m.None? {
          continue;
        }
        title := Some(m.value.0);
        link := Some(m.value.1);
      } else if baseInd.None? {
        var m := LinkMatch(part);
        if m.None? {
          continue;
        }
        var text := m.value.0;
        if CommentText(text) {
          var c := PyInt(Split(text, ' ')[0]);
          if c.Err? {
            return Err(c.error);
          }
          // `break`: the remaining parts are not looked at.
          var done := LineScan(i + 1, baseInd, seqNo, hnId, title, link, Some(c.value), Some(m.value.1), true);
          StoppedStays(parts, i + 1, |parts|, done);
          return Ok(done);
        }
      }
    }
    r := Ok(LineScan(|parts|, baseInd, seqNo, hnId, title, link, comments, commentsLink, false));
  }

  // ---------------------------------------------------------------------------------------------
  // The part recognisers

  /** A part that starts with ASCII digits and a '.' is a rank, read as the digits' value. */
  lemma SeqNumberOf(part: string, d: string)
    requires IsDigits(d) && StartsWith(part, d + ".")
    ensures SeqNumber(part) == Some(DecValue(d))
  {
    assert part[..|d|] == d;
    assert forall k :: 0 <= k < |d| ==> IsDigit(part[k]);
    assert part[|d|] == '.';
    SpanOf(part, 0, |d|, IsDigit);
  }

  /** A rank is the value of the part's leading digits, which a '.' follows. */
  lemma SeqNumberShape(part: string) returns (d: string)
    requires SeqNumber(part).Some?
    ensures IsDigits(d) && StartsWith(part, d + ".") && SeqNumber(part) == Some(DecValue(d))
  {
    var n := Span(part, 0, IsDigit);
    SpanAccepts(part, 0, IsDigit);
    d := part[..n];
    assert part[..n + 1] == d + ".";
  }

  /** The id search finds the leftmost "?id=<digits>", and finds nothing only when the part has none. */
  lemma HnIdInShape(part: string) returns (p: nat)
    requires HnIdIn(part).Some?
    ensures p <= |part| && IdAt(part, p) == HnIdIn(part) && IsDigits(HnIdIn(part).value)
    ensures forall q: nat :: q < p ==> IdAt(part, q).None?
  {
    SearchLeftmost(IdPattern(part), 0, |part|);
    p :| p <= |part| && IdPattern(part)(p) == HnIdIn(part) && forall j: nat :: j < p ==> IdPattern(part)(j).None?;
    forall q: nat | q < p
      ensures IdAt(part, q).None?
    {
      assert IdPattern(part)(q).None?;
    }
  }

  lemma HnIdInNone(part: string)
    ensures HnIdIn(part).None? <==> forall q: nat :: q <= |part| ==> IdAt(part, q).None?
  {
    SearchLeftmost(IdPattern(part), 0, |part|);
    assert forall q: nat :: IdPattern(part)(q) == IdAt(part, q);
  }

  /** The text of a link runs from after '[' to the first ']' (or the end). */
  lemma LinkTextEnd(part: string) returns (k: nat)
    requires |part| > 0 && part[0] == '['
    ensures 0 < k <= |part| && LinkMatch(part) == LinkAfterText(part, k)
    ensures (forall j :: 1 <= j < k ==> part[j] != ']') && (k < |part| ==> part[k] == ']')
  {
    k := 1 + Span(part, 1, NotCloseBracket);
    SpanAccepts(part, 1, NotCloseBracket);
    if k < |part| {
      assert !NotCloseBracket(part[k]);
    }
  }

  /** The spaces after ']' run to the first other character (or the end). */
  lemma LinkSpacesEnd(part: string, k: nat) returns (o: nat)
    requires 0 < k < |part|
    ensures k < o <= |part| && LinkAfterText(part, k) == LinkAfterSpaces(part, k, o)
    ensures forall j :: k < j < o ==> part[j] == ' '
    ensures o < |part| ==> part[o] != ' '
  {
    o := k + 1 + Span(part, k + 1, IsBlank);
    SpanAccepts(part, k + 1, IsBlank);
    if o < |part| {
      assert !IsBlank(part[o]);
    }
  }

  /** The target runs from after '(' to the first ')' (or the end). */
  lemma LinkTargetEnd(part: string, k: nat, o: nat) returns (e: nat)
    requires 0 < k < o <= |part| && HttpOpen(part, o)
    ensures o + 5 <= e <= |part| && LinkAfterSpaces(part, k, o) == LinkTarget(part, k, o, e)
    ensures forall j :: o + 1 <= j < e ==> part[j] != ')'
    ensures e < |part| ==> part[e] == ')'
  {
    e := o + 5 + Span(part, o + 5, NotCloseParen);
    SpanAccepts(part, o + 5, NotCloseParen);
    if e < |part| {
      assert !NotCloseParen(part[e]);
    }
  }

  /** Where a matched link's brackets sit: '[' at 0, ']' at `k`, '(' at `o`, ')' at `e`. */
  lemma LinkIndices(part: string) returns (k: nat, o: nat, e: nat)
    requires LinkMatch(part).Some?
    ensures 0 < k < o && o + 5 <= e < |part|
    ensures part[0] == '[' && part[k] == ']' && HttpOpen(part, o) && part[e] == ')'
    ensures LinkMatch(part) == Some((part[1..k], part[o + 1..e]))
    ensures forall j :: 1 <= j < k ==> part[j] != ']'
    ensures forall j :: k < j < o ==> part[j] == ' '
    ensures forall j :: o + 1 <= j < e ==> part[j] != ')'
  {
    k := LinkTextEnd(part);
    o := LinkSpacesEnd(part, k);
    e := LinkTargetEnd(part, k, o);
  }

  /** A string cut at four marker positions. */
  lemma Pieces(s: string, k: nat, o: nat, e: nat)
    requires 0 < k < o < e < |s|
    ensures s == [s[0]] + s[1..k] + [s[k]] + s[k + 1..o] + [s[o]] + s[o + 1..e] + [s[e]] + s[e + 1..]
  {
    assert s == s[..1] + s[1..k] + s[k..k + 1] + s[k + 1..o] + s[o..o + 1] + s[o + 1..e] + s[e..e + 1] + s[e + 1..];
  }

  /**
   * A matched link is '[' text ']' (no ']' in the text), spaces, '(' and a target that starts with
   * "http" and holds no ')', then ')' and whatever follows.
   */
  lemma LinkMatchShape(part: string, text: string, target: string) returns (n: nat, rest: string)
    requires LinkMatch(part) == Some((text, target))
    ensures part == "[" + text + "]" + Repeat(" ", n) + "(" + target + ")" + rest
    ensures ']' !in text && StartsWith(target, "http") && ')' !in target
  {
    var k, o, e := LinkIndices(part);
    assert text == part[1..k] && target == part[o + 1..e];
    n := o - k - 1;
    rest := part[e + 1..];
    BlankRun(part, k + 1, n);
    Assemble(part, k, o, e, Repeat(" ", n));
    HttpPrefix(target);
  }

  /** A string with '[', ']', '(' and ')' at the given positions is made of the pieces between them. */
  lemma Assemble(part: string, k: nat, o: nat, e: nat, spaces: string)
    requires 0 < k < o < e < |part| && part[k + 1..o] == spaces
    requires part[0] == '[' && part[k] == ']' && part[o] == '(' && part[e] == ')'
    ensures part == "[" + part[1..k] + "]" + spaces + "(" + part[o + 1..e] + ")" + part[e + 1..]
  {
    Pieces(part, k, o, e);
    assert [part[0]] == "[" && [part[k]] == "]" && [part[o]] == "(" && [part[e]] == ")";
  }

  lemma HttpPrefix(t: string)
    requires |t| >= 4 && t[0] == 'h' && t[1] == 't' && t[2] == 't' && t[3] == 'p'
    ensures StartsWith(t, "http")
  {
  }

  /** A run of `n` blanks is `n` spaces. */
  lemma {:induction false} BlankRun(s: string, i: nat, n: nat)
    requires i + n <= |s| && forall k :: i <= k < i + n ==> s[k] == ' '
    ensures s[i..i + n] == Repeat(" ", n)
    decreases n
  {
    if n > 0 {
      BlankRun(s, i + 1, n - 1);
      assert s[i..i + n] == [s[i]] + s[i + 1..i + n];
    }
  }

  /** Every such link is matched, text and target recovered. */
  lemma LinkMatchOf(text: string, n: nat, target: string, rest: string)
    requires ']' !in text && StartsWith(target, "http") && ')' !in target
    ensures LinkMatch("[" + text + "]" + Repeat(" ", n) + "(" + target + ")" + rest) == Some((text, target))
  {
    RepeatBlank(n);
    LinkMatchOfSpaces("[" + text + "]" + Repeat(" ", n) + "(" + target + ")" + rest, text, Repeat(" ", n), target, rest);
  }

  lemma LinkMatchOfSpaces(part: string, text: string, spaces: string, target: string, rest: string)
    requires part == "[" + text + "]" + spaces + "(" + target + ")" + rest
    requires ']' !in text && StartsWith(target, "http") && ')' !in target
    requires forall j :: 0 <= j < |spaces| ==> spaces[j] == ' '
    ensures LinkMatch(part) == Some((text, target))
  {
    LinkPositions(part, text, spaces, target, rest);
    var k, o, e := 1 + |text|, 2 + |text| + |spaces|, 3 + |text| + |spaces| + |target|;
    LinkMatchAt(part, k, o, e);
    assert part[1..k] == text;
    assert part[o + 1..e] == target;
  }

  /** The converse of `LinkIndices`: markers at those positions make a match. */
  lemma LinkMatchAt(part: string, k: nat, o: nat, e: nat)
    requires 0 < k < o && o + 5 <= e < |part|
    requires part[0] == '[' && part[k] == ']' && HttpOpen(part, o) && part[e] == ')'
    requires forall j :: 1 <= j < k ==> NotCloseBracket(part[j])
    requires forall j :: k + 1 <= j < o ==> IsBlank(part[j])
    requires forall j :: o + 5 <= j < e ==> NotCloseParen(part[j])
    ensures LinkMatch(part) == Some((part[1..k], part[o + 1..e]))
  {
    TextStage(part, k);
    SpacesStage(part, k, o);
    TargetStage(part, k, o, e);
  }

  lemma TextStage(part: string, k: nat)
    requires 0 < k <= |part| && part[0] == '[' && (k == |part| || part[k] == ']')
    requires forall j :: 1 <= j < k ==> NotCloseBracket(part[j])
    ensures LinkMatch(part) == LinkAfterText(part, k)
  {
    SpanOf(part, 1, k - 1, NotCloseBracket);
  }

  lemma SpacesStage(part: string, k: nat, o: nat)
    requires 0 < k < o <= |part| && (o == |part| || part[o] != ' ')
    requires forall j :: k + 1 <= j < o ==> IsBlank(part[j])
    ensures LinkAfterText(part, k) == LinkAfterSpaces(part, k, o)
  {
    SpanOf(part, k + 1, o - k - 1, IsBlank);
  }

  lemma TargetStage(part: string, k: nat, o: nat, e: nat)
    requires 0 < k < o && o + 5 <= e <= |part| && HttpOpen(part, o) && (e == |part| || part[e] == ')')
    requires forall j :: o + 5 <= j < e ==> NotCloseParen(part[j])
    ensures LinkAfterSpaces(part, k, o) == LinkTarget(part, k, o, e)
  {
    SpanOf(part, o + 5, e - o - 5, NotCloseParen);
  }

  /** The characters of an assembled link, position by position. */
  lemma LinkPositions(part: string, text: string, spaces: string, target: string, rest: string)
    requires part == "[" + text + "]" + spaces + "(" + target + ")" + rest
    requires ']' !in text && StartsWith(target, "http") && ')' !in target
    requires forall j :: 0 <= j < |spaces| ==> spaces[j] == ' '
    ensures var k := 1 + |text|; var o := k + 1 + |spaces|; var e := o + 1 + |target|;
      && e < |part| && part[0] == '[' && part[1..k] == text && part[k] == ']'
      && (forall j :: 1 <= j < k ==> NotCloseBracket(part[j]))
      && (forall j :: k + 1 <= j < o ==> IsBlank(part[j]))
      && HttpOpen(part, o) && part[o + 1..e] == target
      && (forall j :: o + 5 <= j < e ==> NotCloseParen(part[j])) && part[e] == ')'
  {
    var k := 1 + |text|;
    var o := k + 1 + |spaces|;
    var e := o + 1 + |target|;
    assert forall j :: 1 <= j < k ==> part[j] == text[j - 1];
    assert forall j :: k + 1 <= j < o ==> part[j] == spaces[j - k - 1];
    assert forall j :: o + 1 <= j < e ==> part[j] == target[j - o - 1];
    assert part[o + 1..e] == target;
    assert target[..4] == "http";
    assert part[o + 1] == target[0] == 'h' && part[o + 2] == target[1] == 't';
    assert part[o + 3] == target[2] == 't' && part[o + 4] == target[3] == 'p';
  }

  lemma {:induction false} RepeatBlank(n: nat)
    ensures |Repeat(" ", n)| == n && forall k :: 0 <= k < n ==> Repeat(" ", n)[k] == ' '
  {
    if n > 0 {
      RepeatBlank(n - 1);
    }
  }

  // ---------------------------------------------------------------------------------------------
  // One part of a line

  /** A non-empty part that is a rank records the rank and its index, and is not searched for an id. */
  lemma SeqPartStep(st: LineScan, raw: string)
    requires !st.stopped && Strip(raw) != "" && SeqNumber(Strip(raw)).Some?
    ensures PartStep(st, raw).Ok?
    ensures var r := PartStep(st, raw).value;
      r.seqNo == Some(SeqNumber(Strip(raw)).value) && r.baseInd == Some(st.ind) && r.ind == st.ind + 1
      && r.hnId == st.hnId && r.title == st.title && r.link == st.link && r.comments == st.comments && !r.stopped
  {
  }

  /** Any other non-empty part with an id makes it the current id. */
  lemma IdPartStep(st: LineScan, raw: string)
    requires !st.stopped && Strip(raw) != "" && SeqNumber(Strip(raw)).None? && PartStep(st, raw).Ok?
    ensures PartStep(st, raw).value.hnId == if HnIdIn(Strip(raw)).Some? then HnIdIn(Strip(raw)) else st.hnId
  {
  }

  /** The title and link change only at the part two after the rank, and only when it starts with a link. */
  lemma TitleStep(st: LineScan, raw: string)
    requires PartStep(st, raw).Ok?
    ensures var r := PartStep(st, raw).value; var part := Strip(raw);
      if !st.stopped && part != "" && SeqNumber(part).None? && st.baseInd.Some? && st.ind == st.baseInd.value + 2
         && LinkMatch(part).Some?
      then r.title == Some(LinkMatch(part).value.0) && r.link == Some(LinkMatch(part).value.1)
      else r.title == st.title && r.link == st.link
  {
  }

  /**
   * On a line without a rank so far, a link whose text is "<n> comment…" stops the scan with
   * `comments = int(n)`, or fails when `int` does; nothing else stops it.
   */
  lemma CommentsStep(st: LineScan, raw: string)
    requires !st.stopped
    ensures var part := Strip(raw);
      var counted := part != "" && SeqNumber(part).None? && st.baseInd.None? && LinkMatch(part).Some?
                     && CommentText(LinkMatch(part).value.0);
      var r := PartStep(st, raw);
      && (r.Err? <==> counted && PyInt(Split(LinkMatch(part).value.0, ' ')[0]).Err?)
      && (r.Ok? ==> (r.value.stopped <==> counted))
      && (r.Ok? && counted ==> r.value.comments == Some(PyInt(Split(LinkMatch(part).value.0, ' ')[0]).value)
                               && r.value.commentsLink == Some(LinkMatch(part).value.1))
      && (r.Ok? && !counted ==> r.value.comments == st.comments && r.value.commentsLink == st.commentsLink)
  {
    var part := Strip(raw);
    if part != "" && SeqNumber(part).None? && st.baseInd.None? && LinkMatch(part).Some? {
      var text := LinkMatch(part).value.0;
      if CommentText(text) {
        assert PartStep(st, raw).Ok? ==> PartStep(st, raw).value.stopped;
      } else {
        assert PartStep(st, raw).Ok?;
      }
    }
  }

  // ---------------------------------------------------------------------------------------------
  // A whole line

  /** What the locals satisfy throughout the scan of a line. */
  predicate Consistent(st: LineScan) {
    && (st.baseInd.Some? <==> st.seqNo.Some?)
    && (st.baseInd.Some? ==> st.baseInd.value < st.ind)
    && (st.title.Some? ==> st.baseInd.Some? && st.link.Some?)
    && (st.comments.Some? <==> st.stopped)
    && (st.stopped ==> st.baseInd.None? && st.title.None? && st.commentsLink.Some?)
    && (st.hnId.Some? ==> IsDigits(st.hnId.value))
  }

  lemma PartStepConsistent(st: LineScan, raw: string)
    requires Consistent(st) && PartStep(st, raw).Ok?
    ensures Consistent(PartStep(st, raw).value)
  {
    var part := Strip(raw);
    if !st.stopped && part != "" && SeqNumber(part).None? && HnIdIn(part).Some? {
      var p := HnIdInShape(part);
    }
  }

  /**
   * A title comes with a rank, its index and a link; a comment count only with a stop, on a line
   * with no rank and no title; an id is digits.
   */
  lemma ScanConsistent(parts: seq<string>, k: nat)
    requires k <= |parts| && ScanUpTo(parts, k).Ok?
    ensures Consistent(ScanUpTo(parts, k).value)
  {
    forall st, raw | Consistent(st) && PartStep(st, raw).Ok?
      ensures Consistent(PartStep(st, raw).value)
    {
      PartStepConsistent(st, raw);
    }
    FoldInvariant(PartStep, Consistent, LineStart, parts, k);
  }

  /** The id of the last non-empty, non-rank part among the first `k` that holds one. */
  function LastId(parts: seq<string>, k: nat): Option<string>
    requires k <= |parts|
  {
    if k == 0 then None
    else
      var part := Strip(parts[k - 1]);
      if part != "" && SeqNumber(part).None? && HnIdIn(part).Some? then HnIdIn(part) else LastId(parts, k - 1)
  }

  /**
   * The scan looks at every part unless it stops, and its id is the last one found among the parts
   * it looked at.
   */
  lemma {:induction false} ScanIdIsLast(parts: seq<string>, k: nat)
    requires k <= |parts| && ScanUpTo(parts, k).Ok?
    ensures var st := ScanUpTo(parts, k).value;
      st.ind <= k && (!st.stopped ==> st.ind == k) && st.hnId == LastId(parts, st.ind)
  {
    if k > 0 {
      ScanIdIsLast(parts, k - 1);
      var prev := ScanUpTo(parts, k - 1).value;
      assert ScanUpTo(parts, k) == PartStep(prev, parts[k - 1]);
      PartStepIndId(prev, parts[k - 1]);
    }
  }

  /** A pass over a part moves the index on and takes the part's id unless the scan has stopped. */
  lemma PartStepIndId(st: LineScan, raw: string)
    requires PartStep(st, raw).Ok?
    ensures var r := PartStep(st, raw).value; var part := Strip(raw);
      (st.stopped ==> r == st)
      && (!st.stopped ==>
            r.ind == st.ind + 1
            && r.hnId == (if part != "" && SeqNumber(part).None? && HnIdIn(part).Some? then HnIdIn(part) else st.hnId))
  {
  }

  // ---------------------------------------------------------------------------------------------
  // The articles

  /** A line with a non-empty title and id (`if title and hn_id`) adds an article. */
  predicate Appends(st: LineScan) {
    st.title.Some? && st.title.value != "" && st.hnId.Some? && st.hnId.value != ""
  }

  function NewArticle(st: LineScan): Article
    requires Appends(st)
  {
    Article(st.hnId.value, st.seqNo, st.title.value, st.link, st.comments, st.commentsLink)
  }

  /** An article given the comment count of a line, if it has that line's id. */
  function Recount(a: Article, id: string, c: int, link: Option<string>): Article {
    if a.hnId == id then a.(comments := Some(c), commentsLink := link) else a
  }

  /** `for item in articles: if item['hn_id'] == hn_id: …`. */
  function UpdateComments(arts: seq<Article>, id: string, c: int, link: Option<string>): (r: seq<Article>)
    ensures |r| == |arts|
  {
    seq(|arts|, i requires 0 <= i < |arts| => Recount(arts[i], id, c, link))
  }

  /** What a scanned line does to the articles. */
  function Record(arts: seq<Article>, st: LineScan): seq<Article> {
    if Appends(st) then arts + [NewArticle(st)]
    else if st.comments.Some? && st.hnId.Some? then UpdateComments(arts, st.hnId.value, st.comments.value, st.commentsLink)
    else arts
  }

  function LineEffect(arts: seq<Article>, line: string): Result<seq<Article>> {
    match ScanOf(line)
    case Err(e) => Err(e)
    case Ok(st) => Ok(Record(arts, st))
  }

  /** The articles after the first `k` lines. */
  function ArticlesUpTo(lines: seq<string>, k: nat): Result<seq<Article>>
    requires k <= |lines|
  {
    Fold(LineEffect, [], lines, k)
  }

  /** `extract_articles(contents)`; an `int()` failure on a comment count is its ValueError. */
  function Articles(contents: string): Result<seq<Article>> {
    ArticlesUpTo(Split(contents, '\n'), |Split(contents, '\n')|)
  }

  /** The in-place update of the comment fields of the articles with id `id`. */
  method ApplyComments(articles: seq<Article>, id: string, c: int, link: Option<string>) returns (r: seq<Article>)
    ensures r == UpdateComments(articles, id, c, link)
  {
    r := articles;
    for i := 0 to |r|
      invariant |r| == |articles|
      invariant forall j :: 0 <= j < i ==> r[j] == Recount(articles[j], id, c, link)
      invariant forall j :: i <= j < |r| ==> r[j] == articles[j]
    {
      if r[i].hnId == id {
        r := r[i := r[i].(comments := Some(c), commentsLink := link)];
      }
    }
  }

  lemma ArticlesAdvance(lines: seq<string>, i: nat, arts: seq<Article>)
    requires i < |lines| && ArticlesUpTo(lines, i) == Ok(arts)
    ensures ArticlesUpTo(lines, i + 1) == LineEffect(arts, lines[i])
    ensures LineEffect(arts, lines[i]).Err? ==> ArticlesUpTo(lines, |lines|) == LineEffect(arts, lines[i])
  {
    if LineEffect(arts, lines[i]).Err? {
      FoldErrorSticks(LineEffect, [], lines, i + 1, |lines|);
    }
  }

  /** `extract_articles`: the loop over the lines of the page. */
  method ExtractArticles(contents: string) returns (r: Result<seq<Article>>)
    ensures r == Articles(contents)
  {
    var lines := Split(contents, '\n');
    var articles: seq<Article> := [];
    for li := 0 to |lines|
      invariant ArticlesUpTo(lines, li) == Ok(articles)
    {
      ArticlesAdvance(lines, li, articles);
      var sc := ScanParts(Split(lines[li], '|'));
      if sc.Err? {
        return Err(sc.error);
      }
      var st := sc.value;
      if st.title.Some? && st.title.value != "" && st.hnId.Some? && st.hnId.value != "" {
        articles := articles + [Article(st.hnId.value, st.seqNo, st.title.value, st.link, st.comments, st.commentsLink)];
      } else if st.comments.Some? && st.hnId.Some? {
        articles := ApplyComments(articles, st.hnId.value, st.comments.value, st.commentsLink);
      }
    }
    r := Ok(articles);
  }

  /** What identifies an article and does not change once it is added: id, rank, title and link. */
  function Head(a: Article): (string, Option<int>, string, Option<string>) {
    (a.hnId, a.seqNo, a.title, a.link)
  }

  function Heads(arts: seq<Article>): (r: seq<(string, Option<int>, string, Option<string>)>)
    ensures |r| == |arts| && forall i :: 0 <= i < |arts| ==> r[i] == Head(arts[i])
  {
    seq(|arts|, i requires 0 <= i < |arts| => Head(arts[i]))
  }

  /** A comments line changes only the counts and comment links, and only of the articles with its id. */
  lemma UpdateCommentsEffect(arts: seq<Article>, id: string, c: int, link: Option<string>)
    ensures var r := UpdateComments(arts, id, c, link);
      Heads(r) == Heads(arts)
      && forall i :: 0 <= i < |arts| ==>
           if arts[i].hnId == id then r[i].comments == Some(c) && r[i].commentsLink == link else r[i] == arts[i]
  {
    var r := UpdateComments(arts, id, c, link);
    assert forall i :: 0 <= i < |arts| ==> Head(r[i]) == Head(arts[i]);
  }

  /** The head of the article a line adds, if it adds one. */
  function TitleHead(line: string): Option<(string, Option<int>, string, Option<string>)> {
    match ScanOf(line)
    case Ok(st) => if Appends(st) then Some(Head(NewArticle(st))) else None
    case Err(_) => None
  }

  function TitleStepAt(lines: seq<string>): nat -> Option<(string, Option<int>, string, Option<string>)> {
    (i: nat) => if i < |lines| then TitleHead(lines[i]) else None
  }

  /** The articles are those of the title lines, in line order (comment updates keep their heads). */
  lemma {:induction false} ArticlesFollowTitles(lines: seq<string>, k: nat)
    requires k <= |lines| && ArticlesUpTo(lines, k).Ok?
    ensures Heads(ArticlesUpTo(lines, k).value) == Gather(TitleStepAt(lines), k)
  {
    if k > 0 {
      ArticlesFollowTitles(lines, k - 1);
      var arts := ArticlesUpTo(lines, k - 1).value;
      assert ArticlesUpTo(lines, k) == LineEffect(arts, lines[k - 1]);
      var st := ScanOf(lines[k - 1]).value;
      assert TitleStepAt(lines)(k - 1) == TitleHead(lines[k - 1]);
      RecordHeads(arts, st);
    }
  }

  /** A line adds the head of its article, or keeps the heads as they are. */
  lemma RecordHeads(arts: seq<Article>, st: LineScan)
    ensures Heads(Record(arts, st)) == Heads(arts) + if Appends(st) then [Head(NewArticle(st))] else []
  {
    if Appends(st) {
      assert Heads(arts + [NewArticle(st)]) == Heads(arts) + [Head(NewArticle(st))];
    } else if st.comments.Some? && st.hnId.Some? {
      UpdateCommentsEffect(arts, st.hnId.value, st.comments.value, st.commentsLink);
    }
  }

  /** Every article has a digits-only id, a non-empty title, a rank and a link. */
  predicate WellFormed(arts: seq<Article>) {
    forall i :: 0 <= i < |arts| ==> IsDigits(arts[i].hnId) && arts[i].title != "" && arts[i].seqNo.Some? && arts[i].link.Some?
  }

  lemma RecordWellFormed(arts: seq<Article>, line: string)
    requires WellFormed(arts) && LineEffect(arts, line).Ok?
    ensures WellFormed(LineEffect(arts, line).value)
  {
    var parts := Split(line, '|');
    ScanConsistent(parts, |parts|);
    var st := ScanOf(line).value;
    if !Appends(st) && st.comments.Some? && st.hnId.Some? {
      UpdateCommentsEffect(arts, st.hnId.value, st.comments.value, st.commentsLink);
      assert forall i :: 0 <= i < |arts| ==> Head(UpdateComments(arts, st.hnId.value, st.comments.value, st.commentsLink)[i]) == Head(arts[i]);
    }
  }

  lemma ArticlesWellFormed(lines: seq<string>, k: nat)
    requires k <= |lines| && ArticlesUpTo(lines, k).Ok?
    ensures WellFormed(ArticlesUpTo(lines, k).value)
  {
    forall arts, line | WellFormed(arts) && LineEffect(arts, line).Ok?
      ensures WellFormed(LineEffect(arts, line).value)
    {
      RecordWellFormed(arts, line);
    }
    FoldInvariant(LineEffect, WellFormed, [], lines, k);
  }
}
